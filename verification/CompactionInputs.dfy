/** Choosing the inputs of a compaction: get_overlapping_inputs with its
    level-0 widening restart, add_boundary_inputs, setup_other_inputs,
    pick_compaction and compact_range.

    What the choice must deliver is stated by `InputsOk`: files left behind in
    the upper level hold only newer versions of any shared key, files left
    behind in the lower level lie wholly to one side of all the inputs, and --
    for the automatic picker -- the inputs cover one connected interval of user
    keys (`Connected`). */
module CompactionInputs {
  import opened Keys
  import opened Entries
  import opened Levels

  // ------------------------------------------------- ranges of user keys

  /** A bound of None is open: a null pointer in the source. */
  ghost predicate Within(k: UserKey, lo: Option<UserKey>, hi: Option<UserKey>) {
    (lo.Some? ==> Rank(lo.value) <= Rank(k)) && (hi.Some? ==> Rank(k) <= Rank(hi.value))
  }

  ghost predicate Overlaps(f: File, lo: Option<UserKey>, hi: Option<UserKey>) {
    && (lo.Some? ==> Rank(lo.value) <= Rank(f.largest.user))
    && (hi.Some? ==> Rank(f.smallest.user) <= Rank(hi.value))
  }

  ghost predicate Inside(f: File, lo: Option<UserKey>, hi: Option<UserKey>) {
    Within(f.smallest.user, lo, hi) && Within(f.largest.user, lo, hi)
  }

  ghost predicate Covered(k: UserKey, files: seq<File>) {
    exists f :: f in files && Rank(f.smallest.user) <= Rank(k) <= Rank(f.largest.user)
  }

  /** Every user key between two of the files lies in one of them. */
  ghost predicate Connected(files: seq<File>) {
    forall f, g, k :: f in files && g in files && Rank(f.smallest.user) <= Rank(k) <= Rank(g.largest.user) ==>
      Covered(k, files)
  }

  /** The first n files of a level, those that overlap a range, in order. */
  ghost function OverlappingUpTo(files: seq<File>, lo: Option<UserKey>, hi: Option<UserKey>, n: nat): seq<File>
    requires n <= |files|
  {
    if n == 0 then []
    else
      OverlappingUpTo(files, lo, hi, n - 1) + if Overlaps(files[n - 1], lo, hi) then [files[n - 1]] else []
  }

  ghost function Overlapping(files: seq<File>, lo: Option<UserKey>, hi: Option<UserKey>): seq<File> {
    OverlappingUpTo(files, lo, hi, |files|)
  }

  lemma {:induction false} OverlappingMember(files: seq<File>, lo: Option<UserKey>, hi: Option<UserKey>, n: nat,
                                             f: File)
    requires n <= |files|
    ensures f in OverlappingUpTo(files, lo, hi, n) <==> exists i :: 0 <= i < n && files[i] == f && Overlaps(f, lo, hi)
  {
    if n > 0 {
      OverlappingMember(files, lo, hi, n - 1, f);
    }
  }

  lemma OverlappingMembers(files: seq<File>, lo: Option<UserKey>, hi: Option<UserKey>)
    ensures forall f :: f in Overlapping(files, lo, hi) <==> f in files && Overlaps(f, lo, hi)
  {
    forall f ensures f in Overlapping(files, lo, hi) <==> f in files && Overlaps(f, lo, hi) {
      OverlappingMember(files, lo, hi, |files|, f);
    }
  }

  lemma MemberOfSlice(files: seq<File>, i: nat, e: nat, f: File) returns (t: nat)
    requires i <= e <= |files| && f in files[i..e]
    ensures i <= t < e && files[t] == f
  {
    var a :| 0 <= a < e - i && files[i..e][a] == f;
    t := i + a;
  }

  lemma SlicePrefix(files: seq<File>, i: nat, j: nat, n: nat)
    requires i <= j <= |files| && n <= j - i
    ensures files[i..j][..n] == files[i..i + n]
  {
  }

  lemma SliceHas(files: seq<File>, i: nat, e: nat, t: nat)
    requires i <= t < e <= |files|
    ensures files[t] in files[i..e]
  {
    assert files[i..e][t - i] == files[t];
  }

  ghost function StartingBefore(files: seq<File>, lo: Option<UserKey>): set<int> {
    set i | 0 <= i < |files| && lo.Some? && Rank(files[i].smallest.user) < Rank(lo.value)
  }

  ghost function EndingAfter(files: seq<File>, hi: Option<UserKey>): set<int> {
    set i | 0 <= i < |files| && hi.Some? && Rank(files[i].largest.user) > Rank(hi.value)
  }

  function UserOf(k: Option<InternalKey>): Option<UserKey> {
    if k.Some? then Some(k.value.user) else None
  }

  /** The range [lo, hi] extends [lo0, hi0] only over ground that files cover. */
  ghost predicate Grown(files: seq<File>, lo0: Option<UserKey>, hi0: Option<UserKey>,
                        lo: Option<UserKey>, hi: Option<UserKey>) {
    && (lo.Some? ==> lo0.Some? && Rank(lo.value) <= Rank(lo0.value))
    && (hi.Some? ==> hi0.Some? && Rank(hi0.value) <= Rank(hi.value))
    && (forall k :: Within(k, lo, hi) ==> Within(k, lo0, hi0) || Covered(k, files))
  }

  lemma GrowDown(files: seq<File>, i: nat, lo0: Option<UserKey>, hi0: Option<UserKey>, lo: UserKey, hi: Option<UserKey>)
    requires i < |files| && FileOk(files[i])
    requires Grown(files, lo0, hi0, Some(lo), hi)
    requires Overlaps(files[i], Some(lo), hi) && Rank(files[i].smallest.user) < Rank(lo)
    ensures Grown(files, lo0, hi0, Some(files[i].smallest.user), hi)
    ensures StartingBefore(files, Some(files[i].smallest.user)) < StartingBefore(files, Some(lo))
  {
    assert i in StartingBefore(files, Some(lo)) && i !in StartingBefore(files, Some(files[i].smallest.user));
    forall k | Within(k, Some(files[i].smallest.user), hi) ensures Within(k, lo0, hi0) || Covered(k, files) {
      if !Within(k, Some(lo), hi) {
        assert files[i] in files;
      }
    }
  }

  lemma GrowUp(files: seq<File>, i: nat, lo0: Option<UserKey>, hi0: Option<UserKey>, lo: Option<UserKey>, hi: UserKey)
    requires i < |files| && FileOk(files[i])
    requires Grown(files, lo0, hi0, lo, Some(hi))
    requires Overlaps(files[i], lo, Some(hi)) && Rank(files[i].largest.user) > Rank(hi)
    ensures Grown(files, lo0, hi0, lo, Some(files[i].largest.user))
    ensures EndingAfter(files, Some(files[i].largest.user)) < EndingAfter(files, Some(hi))
  {
    assert i in EndingAfter(files, Some(hi)) && i !in EndingAfter(files, Some(files[i].largest.user));
    forall k | Within(k, lo, Some(files[i].largest.user)) ensures Within(k, lo0, hi0) || Covered(k, files) {
      if !Within(k, lo, Some(hi)) {
        assert files[i] in files;
      }
    }
  }

  lemma CoverIsChosen(files: seq<File>, lo0: Option<UserKey>, hi0: Option<UserKey>, lo: Option<UserKey>,
                      hi: Option<UserKey>)
    requires Grown(files, lo0, hi0, lo, hi)
    ensures Grown(Overlapping(files, lo, hi), lo0, hi0, lo, hi)
  {
    var chosen := Overlapping(files, lo, hi);
    OverlappingMembers(files, lo, hi);
    forall k | Within(k, lo, hi) && Covered(k, files) ensures Covered(k, chosen) {
      var f :| f in files && Rank(f.smallest.user) <= Rank(k) <= Rank(f.largest.user);
      assert f in chosen;
    }
  }

  /** Version::get_overlapping_inputs.  In level 0 a file that sticks out of the
      range widens it and the scan restarts; each restart leaves fewer files
      sticking out.  `lo` and `hi` are the range the scan ended with. */
  method GetOverlappingInputs(files: seq<File>, levelZero: bool, begin: Option<InternalKey>, end: Option<InternalKey>)
    returns (inputs: seq<File>, ghost lo: Option<UserKey>, ghost hi: Option<UserKey>)
    requires forall f :: f in files ==> FileOk(f)
    ensures inputs == Overlapping(files, lo, hi)
    ensures lo.Some? == begin.Some? && hi.Some? == end.Some?
    ensures !levelZero ==> lo == UserOf(begin) && hi == UserOf(end)
    ensures levelZero ==> forall f :: f in inputs ==> Inside(f, lo, hi)
    ensures Grown(inputs, UserOf(begin), UserOf(end), lo, hi)
  {
    var userBegin, userEnd := UserOf(begin), UserOf(end);
    inputs := [];
    var i := 0;
    while i < |files|
      invariant 0 <= i <= |files|
      invariant userBegin.Some? == begin.Some? && userEnd.Some? == end.Some?
      invariant !levelZero ==> userBegin == UserOf(begin) && userEnd == UserOf(end)
      invariant inputs == OverlappingUpTo(files, userBegin, userEnd, i)
      invariant levelZero ==> forall f :: f in inputs ==> Inside(f, userBegin, userEnd)
      invariant Grown(files, UserOf(begin), UserOf(end), userBegin, userEnd)
      decreases StartingBefore(files, userBegin), EndingAfter(files, userEnd), |files| - i
    {
      var file := files[i];
      BoundsInOrder(file);
      i := i + 1;
      if begin.Some? && Compare(file.largest.user, userBegin.value) < 0 {
        continue;
      }
      if end.Some? && Compare(file.smallest.user, userEnd.value) > 0 {
        continue;
      }
      inputs := inputs + [file];
      if levelZero {
        if begin.Some? && Compare(file.smallest.user, userBegin.value) < 0 {
          GrowDown(files, i - 1, UserOf(begin), UserOf(end), userBegin.value, userEnd);
          userBegin := Some(file.smallest.user);
          inputs := [];
          i := 0;
        } else if end.Some? && Compare(file.largest.user, userEnd.value) > 0 {
          GrowUp(files, i - 1, UserOf(begin), UserOf(end), userBegin, userEnd.value);
          userEnd := Some(file.largest.user);
          inputs := [];
          i := 0;
        }
      }
    }
    lo, hi := userBegin, userEnd;
    CoverIsChosen(files, UserOf(begin), UserOf(end), lo, hi);
  }

  // ---------------------------------------------------- boundary files

  ghost predicate Linked(files: seq<File>, i: int)
    requires 0 < i < |files|
  {
    files[i].smallest.user == files[i - 1].largest.user
  }

  /** Where a run of files that share a user key across each boundary ends. */
  ghost function BoundaryEnd(files: seq<File>, to: nat): (r: nat)
    requires 0 < to <= |files|
    ensures to <= r <= |files|
    decreases |files| - to
  {
    if to < |files| && Linked(files, to) then BoundaryEnd(files, to + 1) else to
  }

  lemma {:induction false} BoundaryEndIsTight(files: seq<File>, to: nat)
    requires 0 < to <= |files|
    ensures forall i :: to <= i < BoundaryEnd(files, to) ==> Linked(files, i)
    ensures BoundaryEnd(files, to) < |files| ==> !Linked(files, BoundaryEnd(files, to))
    decreases |files| - to
  {
    if to < |files| && Linked(files, to) {
      BoundaryEndIsTight(files, to + 1);
    }
  }

  /** get_range: the smallest and the largest internal key of some files. */
  method GetRange(files: seq<File>) returns (smallest: InternalKey, largest: InternalKey)
    requires files != []
    ensures forall f :: f in files ==> AtMost(smallest, f.smallest) && AtMost(f.largest, largest)
    ensures exists f :: f in files && f.smallest == smallest
    ensures exists f :: f in files && f.largest == largest
  {
    smallest, largest := files[0].smallest, files[0].largest;
    for i := 1 to |files|
      invariant forall f :: f in files[..i] ==> AtMost(smallest, f.smallest) && AtMost(f.largest, largest)
      invariant exists f :: f in files && f.smallest == smallest
      invariant exists f :: f in files && f.largest == largest
    {
      assert files[..i + 1] == files[..i] + [files[i]];
      if CompareInternal(files[i].smallest, smallest) < 0 {
        smallest := files[i].smallest;
      }
      if CompareInternal(files[i].largest, largest) > 0 {
        largest := files[i].largest;
      }
    }
    assert files[..|files|] == files;
  }

  ghost predicate IsBoundary(levelFiles: seq<File>, largest: InternalKey, i: int)
    requires 0 <= i < |levelFiles|
  {
    Less(largest, levelFiles[i].smallest) && levelFiles[i].smallest.user == largest.user
  }

  /** The file just after `largest` in a level, when its smallest key has the
      same user key. */
  method FindBoundaryFile(levelFiles: seq<File>, largest: InternalKey) returns (found: nat)
    ensures found <= |levelFiles|
    ensures found < |levelFiles| ==> IsBoundary(levelFiles, largest, found)
    ensures forall i :: 0 <= i < found ==> !IsBoundary(levelFiles, largest, i)
  {
    for i := 0 to |levelFiles|
      invariant forall j :: 0 <= j < i ==> !IsBoundary(levelFiles, largest, j)
    {
      if CompareInternal(levelFiles[i].smallest, largest) > 0 && levelFiles[i].smallest.user == largest.user {
        return i;
      }
    }
    return |levelFiles|;
  }

  /** In a sorted level, the boundary file of a run ending before index `to` is
      the next file, if it is linked. */
  lemma BoundaryFileIsNext(files: seq<File>, to: nat, largest: InternalKey, found: nat)
    requires forall f :: f in files ==> FileOk(f)
    requires DisjointSorted(files) && 0 < to <= |files| && found <= |files|
    requires largest == files[to - 1].largest
    requires found < |files| ==> IsBoundary(files, largest, found)
    requires forall i :: 0 <= i < found ==> !IsBoundary(files, largest, i)
    ensures found == if to < |files| && Linked(files, to) then to else |files|
  {
    RankInjective();
    BoundsInOrder(files[to - 1]);
    if to < |files| && Linked(files, to) {
      assert IsBoundary(files, largest, to);
    }
    if found < to {
      BoundsInOrder(files[found]);
    } else if to < found < |files| {
      BoundsInOrder(files[to]);
    }
  }

  lemma ClosedHasNoBoundary(levelFiles: seq<File>, files: seq<File>, largest: InternalKey, i: nat)
    requires forall f :: f in levelFiles ==> FileOk(f)
    requires IsClosed(levelFiles, files) && i < |levelFiles|
    requires forall f :: f in files ==> AtMost(f.largest, largest)
    requires exists f :: f in files && f.largest == largest
    ensures !IsBoundary(levelFiles, largest, i)
  {
    BoundsInOrder(levelFiles[i]);
  }

  ghost predicate IsRun(levelFiles: seq<File>, files: seq<File>, from: nat, to: nat) {
    DisjointSorted(levelFiles) && from < to <= |levelFiles| && files == levelFiles[from..to]
  }

  ghost predicate IsClosed(levelFiles: seq<File>, files: seq<File>) {
    forall f, g :: f in files && g in levelFiles && g.smallest.user == f.largest.user ==> g in files
  }

  /** The search loop of add_boundary_inputs, over a run of a sorted level. */
  method ExtendOverBoundary(levelFiles: seq<File>, files: seq<File>, start: InternalKey, ghost from: nat, ghost to: nat)
    returns (r: seq<File>)
    requires forall f :: f in levelFiles ==> FileOk(f)
    requires IsRun(levelFiles, files, from, to) && start == levelFiles[to - 1].largest
    ensures r == levelFiles[from..BoundaryEnd(levelFiles, to)]
  {
    var largest := start;
    r := files;
    ghost var end := to;
    while true
      invariant to <= end <= |levelFiles| && BoundaryEnd(levelFiles, end) == BoundaryEnd(levelFiles, to)
      invariant r == levelFiles[from..end] && largest == levelFiles[end - 1].largest
      decreases |levelFiles| - end
    {
      var found := FindBoundaryFile(levelFiles, largest);
      BoundaryFileIsNext(levelFiles, end, largest, found);
      if found == |levelFiles| {
        break;
      }
      largest := levelFiles[found].largest;
      r := r + [levelFiles[found]];
      assert levelFiles[from..end + 1] == levelFiles[from..end] + [levelFiles[end]];
      end := end + 1;
    }
  }

  /** add_boundary_inputs.  A run of a sorted level is extended over every file
      that continues its last user key.  A set of level-0 files that includes
      every file starting at one of its last user keys is left alone. */
  method AddBoundaryInputs(levelFiles: seq<File>, files: seq<File>, ghost from: nat, ghost to: nat)
    returns (r: seq<File>)
    requires forall f :: f in levelFiles ==> FileOk(f)
    requires IsRun(levelFiles, files, from, to) || IsClosed(levelFiles, files)
    ensures IsRun(levelFiles, files, from, to) ==> r == levelFiles[from..BoundaryEnd(levelFiles, to)]
    ensures IsClosed(levelFiles, files) ==> r == files
  {
    if files == [] {
      return [];
    }
    var _, largest := GetRange(files);
    if IsRun(levelFiles, files, from, to) {
      RunLargest(levelFiles, from, to, largest);
    }
    var found := FindBoundaryFile(levelFiles, largest);
    if IsRun(levelFiles, files, from, to) {
      BoundaryFileIsNext(levelFiles, to, largest, found);
    }
    if found == |levelFiles| {
      return files;
    }
    if IsClosed(levelFiles, files) {
      ClosedHasNoBoundary(levelFiles, files, largest, found);
    }
    r := ExtendOverBoundary(levelFiles, files, largest, from, to);
  }

  lemma RunLargest(files: seq<File>, from: nat, to: nat, largest: InternalKey)
    requires forall f :: f in files ==> FileOk(f)
    requires DisjointSorted(files) && from < to <= |files|
    requires forall f :: f in files[from..to] ==> AtMost(f.largest, largest)
    requires exists f :: f in files[from..to] && f.largest == largest
    ensures largest == files[to - 1].largest
  {
    var f :| f in files[from..to] && f.largest == largest;
    var i :| 0 <= i < to - from && files[from..to][i] == f;
    assert files[to - 1] == files[from..to][to - 1 - from];
    if from + i < to - 1 {
      BoundsInOrder(files[to - 1]);
    }
  }

  // ------------------------------------------------- ranges of a level

  /** g lies wholly before all the files, in internal-key order, or its user
      keys lie wholly after theirs. */
  ghost predicate Aside(g: File, files: seq<File>) {
    || (forall f :: f in files ==> Less(g.largest, f.smallest))
    || (forall f :: f in files ==> Rank(f.largest.user) < Rank(g.smallest.user))
  }

  ghost predicate AsideRange(g: File, files: seq<File>, lo: UserKey, hi: UserKey) {
    || (Rank(g.largest.user) < Rank(lo) && forall f :: f in files ==> Less(g.largest, f.smallest))
    || (Rank(hi) < Rank(g.smallest.user) && forall f :: f in files ==> Rank(f.largest.user) < Rank(g.smallest.user))
  }

  /** The files chosen for the range [lo, hi] of a level. */
  ghost predicate RangeOk(levelFiles: seq<File>, lo: UserKey, hi: UserKey, r: seq<File>) {
    && (forall f :: f in r ==> f in levelFiles)
    && (forall f :: f in levelFiles && Overlaps(f, Some(lo), Some(hi)) ==> f in r)
    && (forall g :: g in levelFiles && g !in r ==> AsideRange(g, r, lo, hi))
    && (forall f, g, k :: f in r && g in r && Rank(f.smallest.user) <= Rank(k) <= Rank(g.largest.user) ==>
          Within(k, Some(lo), Some(hi)) || Covered(k, r))
  }

  /** Index of the first file at or after i that reaches lo. */
  ghost function FirstReaching(files: seq<File>, lo: UserKey, i: nat := 0): (r: nat)
    requires i <= |files|
    ensures i <= r <= |files|
    decreases |files| - i
  {
    if i < |files| && Rank(files[i].largest.user) < Rank(lo) then FirstReaching(files, lo, i + 1) else i
  }

  /** Index of the first file at or after i that starts beyond hi. */
  ghost function FirstBeyond(files: seq<File>, hi: UserKey, i: nat := 0): (r: nat)
    requires i <= |files|
    ensures i <= r <= |files|
    decreases |files| - i
  {
    if i < |files| && Rank(files[i].smallest.user) <= Rank(hi) then FirstBeyond(files, hi, i + 1) else i
  }

  lemma {:induction false} FirstReachingIsFirst(files: seq<File>, lo: UserKey, i: nat, t: nat)
    requires i <= t <= |files|
    ensures t < FirstReaching(files, lo, i) ==> Rank(files[t].largest.user) < Rank(lo)
    ensures t == FirstReaching(files, lo, i) < |files| ==> Rank(lo) <= Rank(files[t].largest.user)
    decreases |files| - i
  {
    if i < t && Rank(files[i].largest.user) < Rank(lo) {
      FirstReachingIsFirst(files, lo, i + 1, t);
    }
  }

  lemma {:induction false} FirstBeyondIsFirst(files: seq<File>, hi: UserKey, i: nat, t: nat)
    requires i <= t <= |files|
    ensures t < FirstBeyond(files, hi, i) ==> Rank(files[t].smallest.user) <= Rank(hi)
    ensures t == FirstBeyond(files, hi, i) < |files| ==> Rank(hi) < Rank(files[t].smallest.user)
    decreases |files| - i
  {
    if i < t && Rank(files[i].smallest.user) <= Rank(hi) {
      FirstBeyondIsFirst(files, hi, i + 1, t);
    }
  }

  /** In a sorted level, the files of a range together with their boundary. */
  ghost function Closure(files: seq<File>, lo: UserKey, hi: UserKey): seq<File> {
    var i, j := FirstReaching(files, lo), FirstBeyond(files, hi);
    if i < j then files[i..BoundaryEnd(files, j)] else []
  }

  /** The order of a sorted level, as far as user keys show it. */
  ghost predicate RankSorted(files: seq<File>) {
    && (forall i :: 0 <= i < |files| ==> Rank(files[i].smallest.user) <= Rank(files[i].largest.user))
    && (forall i, j :: 0 <= i < j < |files| ==> Rank(files[i].largest.user) <= Rank(files[j].smallest.user))
  }

  lemma SortedLevelRanks(files: seq<File>)
    requires forall f :: f in files ==> FileOk(f)
    requires DisjointSorted(files)
    ensures RankSorted(files)
  {
    forall i | 0 <= i < |files| ensures Rank(files[i].smallest.user) <= Rank(files[i].largest.user) {
      BoundsInOrder(files[i]);
    }
  }

  /** Where each file of a sorted level stands against the two indices. */
  lemma RanksByIndex(files: seq<File>, lo: UserKey, hi: UserKey, t: nat)
    requires RankSorted(files) && t < |files|
    ensures FirstReaching(files, lo) <= t <==> Rank(lo) <= Rank(files[t].largest.user)
    ensures t < FirstBeyond(files, hi) <==> Rank(files[t].smallest.user) <= Rank(hi)
  {
    var i, j := FirstReaching(files, lo), FirstBeyond(files, hi);
    FirstReachingIsFirst(files, lo, 0, t);
    FirstBeyondIsFirst(files, hi, 0, t);
    if i < t {
      FirstReachingIsFirst(files, lo, 0, i);
    }
    if j < t {
      FirstBeyondIsFirst(files, hi, 0, j);
    }
  }

  lemma {:induction false} FilterIsRun(files: seq<File>, lo: Option<UserKey>, hi: Option<UserKey>, i: nat, j: nat,
                                       n: nat)
    requires i <= j <= |files| && n <= |files|
    requires forall t {:trigger Overlaps(files[t], lo, hi)} :: 0 <= t < |files| ==>
               (Overlaps(files[t], lo, hi) <==> i <= t < j)
    ensures OverlappingUpTo(files, lo, hi, n) == if n <= i then [] else if n <= j then files[i..n] else files[i..j]
  {
    if n > 0 {
      FilterIsRun(files, lo, hi, i, j, n - 1);
      assert Overlaps(files[n - 1], lo, hi) <==> i <= n - 1 < j;
      if i < n <= j {
        assert files[i..n] == files[i..n - 1] + [files[n - 1]];
      }
    }
  }

  lemma OverlappingIsRun(files: seq<File>, lo: UserKey, hi: UserKey)
    requires RankSorted(files)
    ensures var i, j := FirstReaching(files, lo), FirstBeyond(files, hi);
            Overlapping(files, Some(lo), Some(hi)) == if i < j then files[i..j] else []
  {
    var i, j := FirstReaching(files, lo), FirstBeyond(files, hi);
    forall t | 0 <= t < |files| ensures Overlaps(files[t], Some(lo), Some(hi)) <==> i <= t < j {
      RanksByIndex(files, lo, hi, t);
    }
    FilterIsRun(files, Some(lo), Some(hi), i, if i < j then j else i, |files|);
  }

  /** A key past the start of one linked file and before the end of a later one
      is covered by the chain between them. */
  lemma {:induction false} ChainCovers(files: seq<File>, from: nat, to: nat, k: UserKey) returns (c: nat)
    requires from < to <= |files|
    requires forall i :: from < i < to ==> Linked(files, i)
    requires Rank(files[from].smallest.user) <= Rank(k) <= Rank(files[to - 1].largest.user)
    ensures from <= c < to && Rank(files[c].smallest.user) <= Rank(k) <= Rank(files[c].largest.user)
    decreases |files| - from
  {
    if Rank(k) <= Rank(files[from].largest.user) {
      c := from;
    } else {
      assert Linked(files, from + 1);
      c := ChainCovers(files, from + 1, to, k);
    }
  }

  /** What lies outside a run that ends at a boundary lies aside of it. */
  lemma OutsideRun(files: seq<File>, from: nat, to: nat, t: nat, s: nat)
    requires DisjointSorted(files) && RankSorted(files)
    requires from <= s < to <= |files| && t < |files|
    requires to < |files| ==> !Linked(files, to)
    ensures t < from ==> Less(files[t].largest, files[s].smallest)
    ensures to <= t ==> Rank(files[s].largest.user) < Rank(files[t].smallest.user)
  {
    if to <= t {
      RankIsLexicographic(files[to].smallest.user, files[to - 1].largest.user);
      assert s < to - 1 ==> Rank(files[s].largest.user) <= Rank(files[to - 1].smallest.user);
      assert to < t ==> Rank(files[to].largest.user) <= Rank(files[t].smallest.user);
    }
  }

  lemma ClosureCovers(files: seq<File>, lo: UserKey, hi: UserKey, a: nat, b: nat, k: UserKey) returns (c: nat)
    requires RankSorted(files)
    requires var i, j := FirstReaching(files, lo), FirstBeyond(files, hi);
             i < j && i <= a < BoundaryEnd(files, j) && i <= b < BoundaryEnd(files, j)
    requires Rank(files[a].smallest.user) <= Rank(k) <= Rank(files[b].largest.user)
    requires !Within(k, Some(lo), Some(hi))
    ensures FirstReaching(files, lo) <= c < BoundaryEnd(files, FirstBeyond(files, hi))
    ensures Rank(files[c].smallest.user) <= Rank(k) <= Rank(files[c].largest.user)
  {
    var i, j := FirstReaching(files, lo), FirstBeyond(files, hi);
    var e := BoundaryEnd(files, j);
    RanksByIndex(files, lo, hi, i);
    RanksByIndex(files, lo, hi, j - 1);
    if Rank(k) < Rank(lo) {
      c := i;
    } else {
      BoundaryEndIsTight(files, j);
      assert b < e - 1 ==> Rank(files[b].largest.user) <= Rank(files[e - 1].smallest.user);
    assert Rank(files[e - 1].smallest.user) <= Rank(files[e - 1].largest.user);
      c := ChainCovers(files, j - 1, e, k);
    }
  }

  lemma ClosureAside(files: seq<File>, lo: UserKey, hi: UserKey, g: File)
    requires DisjointSorted(files) && RankSorted(files)
    requires g in files && g !in Closure(files, lo, hi)
    ensures AsideRange(g, Closure(files, lo, hi), lo, hi) && !Overlaps(g, Some(lo), Some(hi))
  {
    var i, j := FirstReaching(files, lo), FirstBeyond(files, hi);
    var r := Closure(files, lo, hi);
    var t :| 0 <= t < |files| && files[t] == g;
    RanksByIndex(files, lo, hi, t);
    if i < j {
      var e := BoundaryEnd(files, j);
      BoundaryEndIsTight(files, j);
      if i <= t < e {
        SliceHas(files, i, e, t);
      }
      forall f | f in r
        ensures t < i ==> Less(g.largest, f.smallest)
        ensures e <= t ==> Rank(f.largest.user) < Rank(g.smallest.user)
      {
        var s := MemberOfSlice(files, i, e, f);
        OutsideRun(files, i, e, t, s);
      }
    }
  }

  lemma ClosureIsRange(files: seq<File>, lo: UserKey, hi: UserKey)
    requires forall f :: f in files ==> FileOk(f)
    requires DisjointSorted(files)
    ensures RangeOk(files, lo, hi, Closure(files, lo, hi))
  {
    SortedLevelRanks(files);
    var r := Closure(files, lo, hi);
    forall g | g in files && g !in r
      ensures AsideRange(g, r, lo, hi) && !Overlaps(g, Some(lo), Some(hi))
    {
      ClosureAside(files, lo, hi, g);
    }
    forall f, g, k | f in r && g in r && Rank(f.smallest.user) <= Rank(k) <= Rank(g.largest.user)
      ensures Within(k, Some(lo), Some(hi)) || Covered(k, r)
    {
      if !Within(k, Some(lo), Some(hi)) {
        var i, j := FirstReaching(files, lo), FirstBeyond(files, hi);
        var e := BoundaryEnd(files, j);
        var a := MemberOfSlice(files, i, e, f);
        var b := MemberOfSlice(files, i, e, g);
        var c := ClosureCovers(files, lo, hi, a, b, k);
        SliceHas(files, i, e, c);
      }
    }
  }

  lemma ClosureMonotone(files: seq<File>, lo: UserKey, hi: UserKey, lo': UserKey, hi': UserKey, f: File)
    requires RankSorted(files)
    requires Rank(lo') <= Rank(lo) && Rank(hi) <= Rank(hi')
    requires f in Closure(files, lo, hi)
    ensures f in Closure(files, lo', hi')
  {
    var i, j := FirstReaching(files, lo), FirstBeyond(files, hi);
    var i', j' := FirstReaching(files, lo'), FirstBeyond(files, hi');
    RanksByIndex(files, lo, hi, i);
    RanksByIndex(files, lo', hi', i);
    RanksByIndex(files, lo, hi, j - 1);
    RanksByIndex(files, lo', hi', j - 1);
    BoundaryEndMonotone(files, j, j');
    var t := MemberOfSlice(files, i, BoundaryEnd(files, j), f);
    SliceHas(files, i', BoundaryEnd(files, j'), t);
  }

  lemma {:induction false} BoundaryEndMonotone(files: seq<File>, to: nat, to': nat)
    requires 0 < to <= to' <= |files|
    ensures BoundaryEnd(files, to) <= BoundaryEnd(files, to')
    decreases |files| - to
  {
    if to < to' && Linked(files, to) {
      BoundaryEndMonotone(files, to + 1, to');
    }
  }

  // ------------------------------------------------- what a choice must deliver

  /** Nothing left behind in the upper level is older than an input of it, and
      nothing left behind in the lower level lies among the inputs. */
  ghost predicate InputsOk(v: Version, level: nat, in0: seq<File>, in1: seq<File>) {
    && level + 1 < NUM_LEVELS == |v|
    && in0 != []
    && (forall f :: f in in0 ==> f in v[level])
    && (forall f :: f in in1 ==> f in v[level + 1])
    && (forall f, g :: f in in0 && g in v[level] && g !in in0 ==> NewerThan(g, f))
    && (forall g :: g in v[level + 1] && g !in in1 ==> Aside(g, in0 + in1))
  }

  /** The hull of `files` is covered by `cover`. */
  ghost predicate Spanned(files: seq<File>, cover: seq<File>) {
    forall f, g, k :: f in files && g in files && Rank(f.smallest.user) <= Rank(k) <= Rank(g.largest.user) ==>
      Covered(k, cover)
  }

  lemma AsideIsNewer(v: Version, level: nat, g: File, f: File)
    requires LevelsOk(v) && level < NUM_LEVELS && f in v[level] && g in v[level]
    requires Less(g.largest, f.smallest) || Rank(f.largest.user) < Rank(g.smallest.user)
    ensures NewerThan(g, f)
  {
    forall e, d | e in g.entries && d in f.entries && e.key.user == d.key.user
      ensures e.key.sequence > d.key.sequence
    {
      EntryInBounds(g, e);
      EntryInBounds(f, d);
      assert e in Store(v) && d in Store(v);
    }
  }

  // ------------------------------------------------- the upper level

  /** What may be handed to setup_other_inputs: a run of a sorted level, or
      level-0 files closed under overlap. */
  ghost predicate Seed(levelFiles: seq<File>, levelZero: bool, files: seq<File>) {
    && files != []
    && if levelZero then exists lo, hi :: SeedRange(levelFiles, files, lo, hi)
       else exists from, to :: IsRun(levelFiles, files, from, to)
  }

  ghost predicate SeedRange(levelFiles: seq<File>, files: seq<File>, lo: Option<UserKey>, hi: Option<UserKey>) {
    files == Overlapping(levelFiles, lo, hi) && forall f :: f in files ==> Inside(f, lo, hi)
  }

  lemma SeedRangeFacts(levelFiles: seq<File>, files: seq<File>, lo: Option<UserKey>, hi: Option<UserKey>)
    requires forall f :: f in levelFiles ==> FileOk(f)
    requires SeedRange(levelFiles, files, lo, hi)
    ensures forall f :: f in files ==> f in levelFiles
    ensures IsClosed(levelFiles, files)
    ensures forall g :: g in levelFiles && g !in files ==> Aside(g, files)
  {
    OverlappingMembers(levelFiles, lo, hi);
    forall f, g | f in files && g in levelFiles && g.smallest.user == f.largest.user ensures g in files {
      BoundsInOrder(g);
    }
    forall g | g in levelFiles && g !in files ensures Aside(g, files) {
      assert !Overlaps(g, lo, hi);
    }
  }

  lemma RunFacts(levelFiles: seq<File>, from: nat, to: nat)
    requires forall f :: f in levelFiles ==> FileOk(f)
    requires DisjointSorted(levelFiles) && from < to <= |levelFiles|
    ensures var r := levelFiles[from..BoundaryEnd(levelFiles, to)];
            && (forall f :: f in levelFiles[from..to] ==> f in r)
            && (forall f :: f in r ==> f in levelFiles)
            && (forall g :: g in levelFiles && g !in r ==> Aside(g, r))
  {
    SortedLevelRanks(levelFiles);
    BoundaryEndIsTight(levelFiles, to);
    var e := BoundaryEnd(levelFiles, to);
    var r := levelFiles[from..e];
    forall f | f in levelFiles[from..to] ensures f in r {
      var t := MemberOfSlice(levelFiles, from, to, f);
      SliceHas(levelFiles, from, e, t);
    }
    forall g | g in levelFiles && g !in r ensures Aside(g, r) {
      var t :| 0 <= t < |levelFiles| && levelFiles[t] == g;
      if from <= t < e {
        SliceHas(levelFiles, from, e, t);
      }
      forall f | f in r
        ensures t < from ==> Less(g.largest, f.smallest)
        ensures e <= t ==> Rank(f.largest.user) < Rank(g.smallest.user)
      {
        var s := MemberOfSlice(levelFiles, from, e, f);
        OutsideRun(levelFiles, from, e, t, s);
      }
    }
  }

  lemma BoundaryCovers(files: seq<File>, to: nat, b: nat, k: UserKey) returns (c: nat)
    requires RankSorted(files) && 0 < to <= |files| && b < BoundaryEnd(files, to)
    requires Rank(files[to - 1].smallest.user) <= Rank(k) <= Rank(files[b].largest.user)
    ensures to - 1 <= c < BoundaryEnd(files, to)
    ensures Rank(files[c].smallest.user) <= Rank(k) <= Rank(files[c].largest.user)
  {
    BoundaryEndIsTight(files, to);
    var e := BoundaryEnd(files, to);
    assert b < e - 1 ==> Rank(files[b].largest.user) <= Rank(files[e - 1].smallest.user);
    c := ChainCovers(files, to - 1, e, k);
  }

  lemma RunCovers(files: seq<File>, from: nat, to: nat, f: File, k: UserKey)
    requires RankSorted(files) && from < to <= |files|
    requires Connected(files[from..to])
    requires f in files[from..BoundaryEnd(files, to)]
    requires Rank(f.smallest.user) <= Rank(k) < Rank(files[to - 1].smallest.user)
    ensures Covered(k, files[from..to])
  {
    var a := MemberOfSlice(files, from, BoundaryEnd(files, to), f);
    assert a < to;
    SliceHas(files, from, to, a);
    SliceHas(files, from, to, to - 1);
  }

  lemma RunStaysConnected(files: seq<File>, from: nat, to: nat)
    requires RankSorted(files) && from < to <= |files|
    requires Connected(files[from..to])
    ensures Connected(files[from..BoundaryEnd(files, to)])
  {
    var e := BoundaryEnd(files, to);
    var r := files[from..e];
    forall f, g, k | f in r && g in r && Rank(f.smallest.user) <= Rank(k) <= Rank(g.largest.user)
      ensures Covered(k, r)
    {
      var t: nat;
      if Rank(files[to - 1].smallest.user) <= Rank(k) {
        var b := MemberOfSlice(files, from, e, g);
        t := BoundaryCovers(files, to, b, k);
      } else {
        RunCovers(files, from, to, f, k);
        var c :| c in files[from..to] && Rank(c.smallest.user) <= Rank(k) <= Rank(c.largest.user);
        t := MemberOfSlice(files, from, to, c);
      }
      SliceHas(files, from, e, t);
    }
  }

  /** The seed and, in a sorted level, the files that go on with its last user
      key; no others. */
  ghost predicate WithBoundary(levelFiles: seq<File>, levelZero: bool, seed: seq<File>, files: seq<File>) {
    if levelZero then files == seed
    else
      exists from: nat, to: nat :: IsRun(levelFiles, seed, from, to) &&
        files == levelFiles[from..BoundaryEnd(levelFiles, to)]
  }

  /** The first step of setup_other_inputs: the boundary of the upper inputs. */
  method UpperInputs(v: Version, level: nat, seed: seq<File>) returns (in0: seq<File>)
    requires LevelsOk(v) && level < NUM_LEVELS
    requires Seed(v[level], level == 0, seed)
    ensures in0 != []
    ensures forall f :: f in in0 ==> f in v[level]
    ensures forall f :: f in seed ==> f in in0
    ensures forall g :: g in v[level] && g !in in0 ==> Aside(g, in0)
    ensures Connected(seed) ==> Connected(in0)
    ensures WithBoundary(v[level], level == 0, seed, in0)
  {
    if level == 0 {
      ghost var lo, hi :| SeedRange(v[0], seed, lo, hi);
      SeedRangeFacts(v[0], seed, lo, hi);
      in0 := AddBoundaryInputs(v[0], seed, 0, 0);
    } else {
      ghost var from, to :| IsRun(v[level], seed, from, to);
      RunFacts(v[level], from, to);
      SortedLevelRanks(v[level]);
      if Connected(seed) {
        RunStaysConnected(v[level], from, to);
      }
      in0 := AddBoundaryInputs(v[level], seed, from, to);
      assert seed[0] in in0;
    }
  }

  // ------------------------------------------------- a range of any level

  /** get_overlapping_inputs followed by add_boundary_inputs. */
  method RangeInputs(v: Version, level: nat, begin: InternalKey, end: InternalKey) returns (r: seq<File>)
    requires LevelsOk(v) && level < NUM_LEVELS
    ensures RangeOk(v[level], begin.user, end.user, r)
    ensures level > 0 ==> r == Closure(v[level], begin.user, end.user)
  {
    ghost var lo, hi;
    r, lo, hi := GetOverlappingInputs(v[level], level == 0, Some(begin), Some(end));
    if level == 0 {
      SeedRangeFacts(v[0], r, lo, hi);
      r := AddBoundaryInputs(v[0], r, 0, 0);
      GrownIsRange(v[0], begin.user, end.user, lo, hi);
    } else {
      SortedLevelRanks(v[level]);
      OverlappingIsRun(v[level], begin.user, end.user);
      ClosureIsRange(v[level], begin.user, end.user);
      r := AddBoundaryInputs(v[level], r, FirstReaching(v[level], begin.user), FirstBeyond(v[level], end.user));
    }
  }

  lemma GrownIsRange(levelFiles: seq<File>, lo0: UserKey, hi0: UserKey, lo: Option<UserKey>, hi: Option<UserKey>)
    requires forall f :: f in levelFiles ==> FileOk(f)
    requires SeedRange(levelFiles, Overlapping(levelFiles, lo, hi), lo, hi)
    requires Grown(Overlapping(levelFiles, lo, hi), Some(lo0), Some(hi0), lo, hi)
    requires lo.Some? && hi.Some?
    ensures RangeOk(levelFiles, lo0, hi0, Overlapping(levelFiles, lo, hi))
  {
    var r := Overlapping(levelFiles, lo, hi);
    OverlappingMembers(levelFiles, lo, hi);
  }

  // ------------------------------------------------- the lower level

  ghost predicate IsHull(files: seq<File>, smallest: InternalKey, largest: InternalKey) {
    && (forall f :: f in files ==> AtMost(smallest, f.smallest) && AtMost(f.largest, largest))
    && (exists f :: f in files && f.smallest == smallest)
    && (exists f :: f in files && f.largest == largest)
  }

  lemma ClosureTouches(files: seq<File>, lo: UserKey, hi: UserKey)
    requires RankSorted(files)
    ensures Closure(files, lo, hi) != [] ==>
            exists o :: o in Closure(files, lo, hi) && Overlaps(o, Some(lo), Some(hi))
  {
    var i, j := FirstReaching(files, lo), FirstBeyond(files, hi);
    if i < j {
      RanksByIndex(files, lo, hi, i);
      SliceHas(files, i, BoundaryEnd(files, j), i);
    }
  }

  lemma LowerInputsOk(v: Version, level: nat, in0: seq<File>, smallest: InternalKey, largest: InternalKey,
                      in1: seq<File>)
    requires LevelsOk(v) && level + 1 < NUM_LEVELS
    requires in0 != [] && IsHull(in0, smallest, largest)
    requires forall f :: f in in0 ==> f in v[level]
    requires forall g :: g in v[level] && g !in in0 ==> Aside(g, in0)
    requires RangeOk(v[level + 1], smallest.user, largest.user, in1)
    ensures InputsOk(v, level, in0, in1)
  {
    forall f, g | f in in0 && g in v[level] && g !in in0 ensures NewerThan(g, f) {
      AsideIsNewer(v, level, g, f);
    }
    forall g | g in v[level + 1] && g !in in1 ensures Aside(g, in0 + in1) {
      AsideBoth(g, in0, smallest, largest, in1);
    }
  }

  lemma AsideBoth(g: File, in0: seq<File>, smallest: InternalKey, largest: InternalKey, in1: seq<File>)
    requires IsHull(in0, smallest, largest)
    requires AsideRange(g, in1, smallest.user, largest.user)
    ensures Aside(g, in0 + in1)
  {
    if Rank(g.largest.user) < Rank(smallest.user) && forall f :: f in in1 ==> Less(g.largest, f.smallest) {
      forall f | f in in0 + in1 ensures Less(g.largest, f.smallest) {
      }
    } else {
      forall f | f in in0 + in1 ensures Rank(f.largest.user) < Rank(g.smallest.user) {
      }
    }
  }

  lemma LowerSpanned(in0: seq<File>, smallest: InternalKey, largest: InternalKey, levelFiles: seq<File>,
                     in1: seq<File>, cover: seq<File>)
    requires IsHull(in0, smallest, largest) && Spanned(in0, cover)
    requires RangeOk(levelFiles, smallest.user, largest.user, in1)
    requires in1 != [] ==> exists o :: o in in1 && Overlaps(o, Some(smallest.user), Some(largest.user))
    ensures Spanned(in0 + in1, cover + in1)
  {
    forall f, g, k | f in in0 + in1 && g in in0 + in1 && Rank(f.smallest.user) <= Rank(k) <= Rank(g.largest.user)
      ensures Covered(k, cover + in1)
    {
      if Within(k, Some(smallest.user), Some(largest.user)) {
        assert Covered(k, cover);
      } else {
        assert f in in1 || g in in1;
        var o :| o in in1 && Overlaps(o, Some(smallest.user), Some(largest.user));
        assert Covered(k, in1);
      }
    }
  }

  /** The files of level + 1 that a choice at `level` must take along. */
  method LowerInputs(v: Version, level: nat, in0: seq<File>, ghost cover: seq<File>)
    returns (in1: seq<File>, smallest: InternalKey, largest: InternalKey)
    requires LevelsOk(v) && level + 1 < NUM_LEVELS
    requires in0 != []
    requires forall f :: f in in0 ==> f in v[level]
    requires forall g :: g in v[level] && g !in in0 ==> Aside(g, in0)
    ensures IsHull(in0, smallest, largest)
    ensures in1 == Closure(v[level + 1], smallest.user, largest.user)
    ensures InputsOk(v, level, in0, in1)
    ensures Spanned(in0, cover) ==> Spanned(in0 + in1, cover + in1)
  {
    smallest, largest := GetRange(in0);
    in1 := RangeInputs(v, level + 1, smallest, largest);
    LowerInputsOk(v, level, in0, smallest, largest, in1);
    SortedLevelRanks(v[level + 1]);
    ClosureTouches(v[level + 1], smallest.user, largest.user);
    if Spanned(in0, cover) {
      LowerSpanned(in0, smallest, largest, v[level + 1], in1, cover);
    }
  }

  // ------------------------------------------------- setup_other_inputs

  function TotalFileSize(files: seq<File>): nat {
    if files == [] then 0 else files[0].size + TotalFileSize(files[1..])
  }

  lemma ExpandedSpanned(in0: seq<File>, in1: seq<File>, start: InternalKey, limit: InternalKey,
                        levelFiles: seq<File>, expanded0: seq<File>)
    requires IsHull(in0 + in1, start, limit) && Connected(in0 + in1)
    requires RangeOk(levelFiles, start.user, limit.user, expanded0)
    requires forall f :: f in in0 ==> f in expanded0
    ensures Spanned(expanded0, expanded0 + in1)
  {
    var first :| first in in0 + in1 && first.smallest == start;
    var last :| last in in0 + in1 && last.largest == limit;
    forall f, g, k | f in expanded0 && g in expanded0 && Rank(f.smallest.user) <= Rank(k) <= Rank(g.largest.user)
      ensures Covered(k, expanded0 + in1)
    {
      if Within(k, Some(start.user), Some(limit.user)) {
        assert Covered(k, in0 + in1);
      } else {
        assert Covered(k, expanded0);
      }
    }
  }

  lemma HullIsChosen(v: Version, level: nat, in0: seq<File>, in1: seq<File>, start: InternalKey, limit: InternalKey,
                     expanded0: seq<File>)
    requires LevelsOk(v) && InputsOk(v, level, in0, in1)
    requires IsHull(in0 + in1, start, limit)
    requires RangeOk(v[level], start.user, limit.user, expanded0)
    ensures forall f :: f in in0 ==> f in expanded0
    ensures forall g :: g in v[level] && g !in expanded0 ==> Aside(g, expanded0)
  {
    forall f | f in in0 ensures f in expanded0 {
      HullOverlaps(f, in0 + in1, start, limit);
    }
    RangeLeavesAside(v[level], start.user, limit.user, expanded0);
  }

  lemma HullOverlaps(f: File, files: seq<File>, start: InternalKey, limit: InternalKey)
    requires FileOk(f) && f in files && IsHull(files, start, limit)
    ensures Overlaps(f, Some(start.user), Some(limit.user))
  {
    BoundsInOrder(f);
  }

  lemma RangeLeavesAside(levelFiles: seq<File>, lo: UserKey, hi: UserKey, r: seq<File>)
    requires RangeOk(levelFiles, lo, hi, r)
    ensures forall g :: g in levelFiles && g !in r ==> Aside(g, r)
  {
    forall g | g in levelFiles && g !in r ensures Aside(g, r) {
      assert AsideRange(g, r, lo, hi);
    }
  }

  lemma CoverShrinks(files: seq<File>, big: seq<File>, small: seq<File>)
    requires Spanned(files, big)
    requires forall f :: f in big ==> f in small
    ensures Spanned(files, small)
  {
    forall f, g, k | f in files && g in files && Rank(f.smallest.user) <= Rank(k) <= Rank(g.largest.user)
      ensures Covered(k, small)
    {
      assert Covered(k, big);
    }
  }

  /** What the free widening makes of the inputs, if `wide` is the upper level
      over the whole range: it is taken when it brings more files, the whole is
      not too large, and there are as many lower inputs as before. */
  ghost predicate Widened(v: Version, level: nat, in0: seq<File>, in1: seq<File>, wide: seq<File>, maxFileSize: nat,
                          r0: seq<File>, r1: seq<File>)
    requires level + 1 < |v|
  {
    if |wide| > |in0| && TotalFileSize(in1) + TotalFileSize(wide) < 50 * maxFileSize then
      exists start, limit :: IsHull(wide, start, limit) &&
        var below := Closure(v[level + 1], start.user, limit.user);
        if |below| == |in1| then r0 == wide && r1 == below else r0 == in0 && r1 == in1
    else
      r0 == in0 && r1 == in1
  }

  /** The files of a level over the range of some others. */
  ghost predicate OverRange(v: Version, level: nat, files: seq<File>, wide: seq<File>)
    requires level < |v|
  {
    exists start, limit :: IsHull(files, start, limit) && RangeOk(v[level], start.user, limit.user, wide) &&
      (level > 0 ==> wide == Closure(v[level], start.user, limit.user))
  }

  method ExpandInputs(v: Version, level: nat, in0: seq<File>, in1: seq<File>, smallest: InternalKey,
                      largest: InternalKey, maxFileSize: nat)
    returns (r0: seq<File>, r1: seq<File>, newSmallest: InternalKey, newLargest: InternalKey, ghost wide: seq<File>)
    requires LevelsOk(v) && InputsOk(v, level, in0, in1)
    requires IsHull(in0, smallest, largest) && in1 == Closure(v[level + 1], smallest.user, largest.user)
    ensures InputsOk(v, level, r0, r1)
    ensures Connected(in0 + in1) ==> Connected(r0 + r1)
    ensures forall f :: f in in0 ==> f in r0
    ensures IsHull(r0, newSmallest, newLargest) && r1 == Closure(v[level + 1], newSmallest.user, newLargest.user)
    ensures OverRange(v, level, in0 + in1, wide) && Widened(v, level, in0, in1, wide, maxFileSize, r0, r1)
  {
    r0, r1, newSmallest, newLargest := in0, in1, smallest, largest;
    var start, limit := GetRange(in0 + in1);
    assert IsHull(in0 + in1, start, limit);
    var expanded0 := RangeInputs(v, level, start, limit);
    wide := expanded0;
    HullIsChosen(v, level, in0, in1, start, limit, expanded0);
    assert in0[0] in expanded0;
    if |expanded0| > |in0| && TotalFileSize(in1) + TotalFileSize(expanded0) < 50 * maxFileSize {
      var expanded1, newStart, newLimit := LowerInputs(v, level, expanded0, expanded0 + in1);
      if |expanded1| == |in1| {
        if Connected(in0 + in1) {
          StaysConnected(v, level, in0, in1, smallest, largest, start, limit, expanded0, expanded1, newStart, newLimit);
        }
        r0, r1, newSmallest, newLargest := expanded0, expanded1, newStart, newLimit;
      }
    }
  }

  lemma StaysConnected(v: Version, level: nat, in0: seq<File>, in1: seq<File>, smallest: InternalKey,
                       largest: InternalKey, start: InternalKey, limit: InternalKey, expanded0: seq<File>,
                       expanded1: seq<File>, newStart: InternalKey, newLimit: InternalKey)
    requires LevelsOk(v) && InputsOk(v, level, in0, in1) && Connected(in0 + in1)
    requires IsHull(in0, smallest, largest) && in1 == Closure(v[level + 1], smallest.user, largest.user)
    requires IsHull(in0 + in1, start, limit) && RangeOk(v[level], start.user, limit.user, expanded0)
    requires forall f :: f in in0 ==> f in expanded0
    requires IsHull(expanded0, newStart, newLimit)
    requires expanded1 == Closure(v[level + 1], newStart.user, newLimit.user)
    requires Spanned(expanded0, expanded0 + in1) ==> Spanned(expanded0 + expanded1, expanded0 + in1 + expanded1)
    ensures Connected(expanded0 + expanded1)
  {
    ExpandedSpanned(in0, in1, start, limit, v[level], expanded0);
    SortedLevelRanks(v[level + 1]);
    forall f | f in expanded0 + in1 + expanded1 ensures f in expanded0 + expanded1 {
      if f in in1 {
        ClosureMonotone(v[level + 1], smallest.user, largest.user, newStart.user, newLimit.user, f);
      }
    }
    CoverShrinks(expanded0 + expanded1, expanded0 + in1 + expanded1, expanded0 + expanded1);
  }

  /** setup_other_inputs.  The seed is completed, then perhaps widened; the lower
      inputs are what the upper ones need, and no more.  `pointer` is the new
      compaction pointer of the level, where the inputs end. */
  method SetupOtherInputs(v: Version, level: nat, seed: seq<File>, maxFileSize: nat)
    returns (in0: seq<File>, in1: seq<File>, grandparents: seq<File>, pointer: InternalKey)
    requires LevelsOk(v) && level + 1 < NUM_LEVELS
    requires Seed(v[level], level == 0, seed)
    ensures InputsOk(v, level, in0, in1)
    ensures Connected(seed) ==> Connected(in0 + in1)
    ensures forall f :: f in seed ==> f in in0
    ensures PointerOk(v, level, in0, in1, pointer)
    ensures GrandparentsOk(v, level, in0 + in1, grandparents)
    ensures exists upper, lower, wide :: WithBoundary(v[level], level == 0, seed, upper) &&
              ChosenFrom(v, level, upper, lower, wide, maxFileSize, in0, in1)
  {
    var upper := UpperInputs(v, level, seed);
    var lower, smallest, largest := LowerInputs(v, level, upper, upper);
    in0, in1, pointer := upper, lower, largest;
    ghost var wide;
    in0, in1, pointer, wide := MaybeExpand(v, level, upper, lower, smallest, largest, maxFileSize);
    grandparents := Grandparents(v, level, in0, in1);
  }

  /** Without lower inputs there is nothing to widen for. */
  ghost predicate ChosenFrom(v: Version, level: nat, upper: seq<File>, lower: seq<File>, wide: seq<File>,
                             maxFileSize: nat, in0: seq<File>, in1: seq<File>)
    requires level + 1 < |v|
  {
    && (exists pointer :: PointerOk(v, level, upper, lower, pointer))
    && if lower == [] then in0 == upper && in1 == []
       else OverRange(v, level, upper + lower, wide) && Widened(v, level, upper, lower, wide, maxFileSize, in0, in1)
  }

  method MaybeExpand(v: Version, level: nat, upper: seq<File>, lower: seq<File>, smallest: InternalKey,
                     largest: InternalKey, maxFileSize: nat)
    returns (in0: seq<File>, in1: seq<File>, pointer: InternalKey, ghost wide: seq<File>)
    requires LevelsOk(v) && InputsOk(v, level, upper, lower)
    requires IsHull(upper, smallest, largest) && lower == Closure(v[level + 1], smallest.user, largest.user)
    ensures InputsOk(v, level, in0, in1) && PointerOk(v, level, in0, in1, pointer)
    ensures Connected(upper + lower) ==> Connected(in0 + in1)
    ensures forall f :: f in upper ==> f in in0
    ensures ChosenFrom(v, level, upper, lower, wide, maxFileSize, in0, in1)
  {
    in0, in1, pointer, wide := upper, lower, largest, [];
    assert PointerOk(v, level, upper, lower, pointer);
    if in1 != [] {
      var start;
      in0, in1, start, pointer, wide := ExpandInputs(v, level, upper, lower, smallest, largest, maxFileSize);
    }
  }

  /** The inputs end at the pointer, and the lower ones are those that the
      range of the upper ones needs. */
  ghost predicate PointerOk(v: Version, level: nat, in0: seq<File>, in1: seq<File>, pointer: InternalKey)
    requires level + 1 < |v|
  {
    exists smallest :: IsHull(in0, smallest, pointer) && in1 == Closure(v[level + 1], smallest.user, pointer.user)
  }

  /** Two levels down, the files over the range of the inputs. */
  ghost predicate GrandparentsOk(v: Version, level: nat, inputs: seq<File>, grandparents: seq<File>) {
    if level + 2 < |v| then
      exists start, limit :: IsHull(inputs, start, limit) &&
        grandparents == Overlapping(v[level + 2], Some(start.user), Some(limit.user))
    else grandparents == []
  }

  method Grandparents(v: Version, level: nat, in0: seq<File>, in1: seq<File>) returns (grandparents: seq<File>)
    requires LevelsOk(v) && InputsOk(v, level, in0, in1) && in0 != []
    ensures GrandparentsOk(v, level, in0 + in1, grandparents)
  {
    grandparents := [];
    if level + 2 < NUM_LEVELS {
      var start, limit := GetRange(in0 + in1);
      ghost var lo, hi;
      grandparents, lo, hi := GetOverlappingInputs(v[level + 2], false, Some(start), Some(limit));
      assert IsHull(in0 + in1, start, limit);
    }
  }

  // ------------------------------------------------- pick_compaction, compact_range

  /** Why a compaction is picked: a level over its size, resumed after the
      level's compaction pointer, or a file charged with too many seeks. */
  datatype Reason = BySize(level: nat, pointer: Option<InternalKey>) | BySeeks(level: nat, index: nat)

  ghost predicate ReasonOk(v: Version, reason: Reason) {
    && reason.level + 1 < NUM_LEVELS == |v|
    && match reason
       case BySize(level, _) => v[level] != []
       case BySeeks(level, index) => index < |v[level]|
  }

  /** The file a size-based pick starts from: the first that ends past the
      pointer, or the first of all if there is no pointer or none does. */
  ghost predicate PastPointer(files: seq<File>, pointer: Option<InternalKey>, f: File) {
    exists i :: 0 <= i < |files| && files[i] == f &&
      if pointer.Some? && Less(pointer.value, files[i].largest) then
        forall j :: 0 <= j < i ==> AtMost(files[j].largest, pointer.value)
      else
        i == 0 && (pointer.Some? ==> forall g :: g in files ==> AtMost(g.largest, pointer.value))
  }

  /** The first file past the compaction pointer, or the first file of all. */
  method FirstPast(files: seq<File>, pointer: Option<InternalKey>) returns (index: nat)
    requires files != []
    ensures index < |files|
    ensures PastPointer(files, pointer, files[index])
  {
    for i := 0 to |files|
      invariant pointer.None? ==> i == 0
      invariant pointer.Some? ==> forall j :: 0 <= j < i ==> AtMost(files[j].largest, pointer.value)
    {
      if pointer.None? || CompareInternal(files[i].largest, pointer.value) > 0 {
        assert PastPointer(files, pointer, files[i]);
        return i;
      }
    }
    assert PastPointer(files, pointer, files[0]);
    return 0;
  }

  lemma OneFileIsConnected(f: File)
    ensures Connected([f])
  {
    forall k | Rank(f.smallest.user) <= Rank(k) <= Rank(f.largest.user) ensures Covered(k, [f]) {
      assert f in [f];
    }
  }

  lemma GrownFromOneFile(levelFiles: seq<File>, f: File, lo: Option<UserKey>, hi: Option<UserKey>)
    requires forall g :: g in levelFiles ==> FileOk(g)
    requires f in levelFiles
    requires SeedRange(levelFiles, Overlapping(levelFiles, lo, hi), lo, hi)
    requires Grown(Overlapping(levelFiles, lo, hi), Some(f.smallest.user), Some(f.largest.user), lo, hi)
    ensures Seed(levelFiles, true, Overlapping(levelFiles, lo, hi))
    ensures Connected(Overlapping(levelFiles, lo, hi))
    ensures f in Overlapping(levelFiles, lo, hi)
  {
    BoundsInOrder(f);
    var r := Overlapping(levelFiles, lo, hi);
    OverlappingMembers(levelFiles, lo, hi);
    assert f in r;
    forall a, b, k | a in r && b in r && Rank(a.smallest.user) <= Rank(k) <= Rank(b.largest.user)
      ensures Covered(k, r)
    {
      assert Within(k, lo, hi);
    }
  }

  /** pick_compaction: the inputs are safe to compact, cover one connected
      interval of user keys and include the file it was picked for; the next
      pick goes on where they end. */
  method PickCompaction(v: Version, reason: Reason, maxFileSize: nat)
    returns (in0: seq<File>, in1: seq<File>, grandparents: seq<File>, pointer: InternalKey)
    requires LevelsOk(v) && ReasonOk(v, reason)
    ensures InputsOk(v, reason.level, in0, in1)
    ensures Connected(in0 + in1)
    ensures reason.BySeeks? ==> v[reason.level][reason.index] in in0
    ensures reason.BySize? ==> exists f :: f in in0 && PastPointer(v[reason.level], reason.pointer, f)
    ensures PointerOk(v, reason.level, in0, in1, pointer)
    ensures GrandparentsOk(v, reason.level, in0 + in1, grandparents)
  {
    var level := reason.level;
    var index;
    match reason {
      case BySize(_, p) => index := FirstPast(v[level], p);
      case BySeeks(_, i) => index := i;
    }
    var seed := SeedAt(v, level, index);
    in0, in1, grandparents, pointer := SetupOtherInputs(v, level, seed, maxFileSize);
  }

  /** One file and, in level 0, everything that overlaps it. */
  method SeedAt(v: Version, level: nat, index: nat) returns (seed: seq<File>)
    requires LevelsOk(v) && level < NUM_LEVELS && index < |v[level]|
    ensures Seed(v[level], level == 0, seed) && Connected(seed) && v[level][index] in seed
  {
    var file := v[level][index];
    if level == 0 {
      ghost var lo, hi;
      seed, lo, hi := GetOverlappingInputs(v[0], true, Some(file.smallest), Some(file.largest));
      GrownFromOneFile(v[0], file, lo, hi);
    } else {
      seed := [file];
      OneFileIsConnected(file);
      assert seed == v[level][index..index + 1];
      assert IsRun(v[level], seed, index, index + 1);
    }
  }

  lemma OverlappingIsSomeRun(files: seq<File>, lo: Option<UserKey>, hi: Option<UserKey>) returns (i: nat, j: nat)
    requires RankSorted(files)
    ensures i <= j <= |files|
    ensures Overlapping(files, lo, hi) == files[i..j]
  {
    i := if lo.Some? then FirstReaching(files, lo.value) else 0;
    j := if hi.Some? then FirstBeyond(files, hi.value) else |files|;
    if j < i {
      j := i;
    }
    forall t | 0 <= t < |files| ensures Overlaps(files[t], lo, hi) <==> i <= t < j {
      RanksByIndex(files, if lo.Some? then lo.value else [], if hi.Some? then hi.value else [], t);
    }
    FilterIsRun(files, lo, hi, i, j, |files|);
  }

  /** The fewest files from the front whose sizes reach the limit, or all. */
  ghost predicate IsCut(files: seq<File>, limit: nat, cut: seq<File>) {
    && cut != [] && cut <= files
    && (cut == files || TotalFileSize(cut) >= limit)
    && (|cut| == 1 || TotalFileSize(cut[..|cut| - 1]) < limit)
  }

  lemma {:induction false} TotalOfMore(files: seq<File>, f: File)
    ensures TotalFileSize(files + [f]) == TotalFileSize(files) + f.size
  {
    if files == [] {
      assert [f][1..] == [];
    } else {
      assert (files + [f])[1..] == files[1..] + [f];
      TotalOfMore(files[1..], f);
    }
  }

  /** The cut of compact_range: enough files to reach one file's worth. */
  method CutToOneFile(files: seq<File>, limit: nat) returns (n: nat)
    requires files != []
    ensures 0 < n <= |files| && IsCut(files, limit, files[..n])
  {
    var total := 0;
    for i := 0 to |files|
      invariant total == TotalFileSize(files[..i]) && (i == 0 || total < limit)
    {
      TotalOfMore(files[..i], files[i]);
      assert files[..i + 1] == files[..i] + [files[i]] && files[..i + 1][..i] == files[..i];
      total := total + files[i].size;
      if total >= limit {
        return i + 1;
      }
    }
    assert files[..|files|] == files;
    TotalGrows(files, |files| - 1);
    return |files|;
  }

  lemma TotalGrows(files: seq<File>, n: nat)
    requires n + 1 == |files|
    ensures TotalFileSize(files[..n]) <= TotalFileSize(files)
  {
    TotalOfMore(files[..n], files[n]);
    assert files[..n] + [files[n]] == files;
  }

  /** What compact_range asks for: every file of the range or, below level 0, as
      many as make one file. */
  ghost predicate IsAsked(v: Version, level: nat, lo: Option<UserKey>, hi: Option<UserKey>, maxFileSize: nat,
                          seed: seq<File>)
    requires level < |v|
  {
    if level == 0 then forall f :: f in v[0] && Overlaps(f, lo, hi) ==> f in seed
    else IsCut(Overlapping(v[level], lo, hi), maxFileSize, seed)
  }

  method RangeSeed(v: Version, level: nat, begin: Option<InternalKey>, end: Option<InternalKey>, maxFileSize: nat)
    returns (seed: seq<File>)
    requires LevelsOk(v) && level < NUM_LEVELS
    ensures seed != [] ==>
              Seed(v[level], level == 0, seed) && IsAsked(v, level, UserOf(begin), UserOf(end), maxFileSize, seed)
    ensures seed == [] ==> forall f :: f in v[level] ==> !Overlaps(f, UserOf(begin), UserOf(end))
  {
    var inputs;
    ghost var lo, hi;
    inputs, lo, hi := GetOverlappingInputs(v[level], level == 0, begin, end);
    OverlappingMembers(v[level], lo, hi);
    if inputs == [] {
      NothingOverlaps(v[level], UserOf(begin), UserOf(end), lo, hi);
      return [];
    }
    if level > 0 {
      SortedLevelRanks(v[level]);
      ghost var i, j := OverlappingIsSomeRun(v[level], lo, hi);
      var n := CutToOneFile(inputs, maxFileSize);
      SlicePrefix(v[level], i, j, n);
      inputs := inputs[..n];
      assert IsRun(v[level], inputs, i, i + n);
    } else {
      assert SeedRange(v[0], inputs, lo, hi);
    }
    seed := inputs;
  }

  /** compact_range: safe inputs, but nothing about the ground between them.
      `seed` is what was asked for, before the boundaries and the other level
      were added. */
  method CompactRange(v: Version, level: nat, begin: Option<InternalKey>, end: Option<InternalKey>, maxFileSize: nat)
    returns (found: bool, in0: seq<File>, in1: seq<File>, ghost seed: seq<File>)
    requires LevelsOk(v) && level + 1 < NUM_LEVELS
    ensures found ==> InputsOk(v, level, in0, in1) && forall f :: f in seed ==> f in in0
    ensures found ==> IsAsked(v, level, UserOf(begin), UserOf(end), maxFileSize, seed)
    ensures !found ==> forall f :: f in v[level] ==> !Overlaps(f, UserOf(begin), UserOf(end))
  {
    var inputs := RangeSeed(v, level, begin, end, maxFileSize);
    if inputs == [] {
      return false, [], [], [];
    }
    var pointer, grandparents;
    seed := inputs;
    in0, in1, grandparents, pointer := SetupOtherInputs(v, level, inputs, maxFileSize);
    found := true;
  }

  lemma NothingOverlaps(levelFiles: seq<File>, lo0: Option<UserKey>, hi0: Option<UserKey>, lo: Option<UserKey>,
                        hi: Option<UserKey>)
    requires forall f :: f in levelFiles ==> FileOk(f)
    requires Overlapping(levelFiles, lo, hi) == []
    requires Grown([], lo0, hi0, lo, hi)
    ensures forall f :: f in levelFiles ==> !Overlaps(f, lo0, hi0)
  {
    OverlappingMembers(levelFiles, lo, hi);
  }
}
