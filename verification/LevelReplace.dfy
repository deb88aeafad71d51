/** Replacing the inputs of a compaction by its outputs, as one step on the
    installed version.

    `ReplaceIff` is exact: the step keeps the level invariant if and only if no
    output file spans a file left behind in the output level.  For inputs that
    are `InputsOk` there is never such a file (`NothingIsSpanned`). */
module LevelReplace {
  import opened Keys
  import opened Entries
  import opened Levels
  import opened CompactionInputs
  import opened VersionBuilder

  ghost predicate PairwiseDisjoint(files: seq<File>) {
    forall f, g :: f in files && g in files && f != g ==> Less(f.largest, g.smallest) || Less(g.largest, f.smallest)
  }

  lemma SortedIsPairwise(files: seq<File>)
    requires DisjointSorted(files)
    ensures PairwiseDisjoint(files)
  {
  }

  ghost function EntriesOf(files: seq<File>): set<Entry> {
    set f, e | f in files && e in f.entries :: e
  }

  /** InputsOk, but about the lower level only file by file: a file left behind
      may lie in a gap between the inputs. */
  ghost predicate GapInputsOk(v: Version, level: nat, in0: seq<File>, in1: seq<File>) {
    && level + 1 < NUM_LEVELS == |v|
    && in0 != []
    && (forall f :: f in in0 ==> f in v[level])
    && (forall f :: f in in1 ==> f in v[level + 1])
    && (forall f, g :: f in in0 && g in v[level] && g !in in0 ==> NewerThan(g, f))
    && (forall f, g :: f in in0 + in1 && g in v[level + 1] && g !in in1 ==>
          Less(g.largest, f.smallest) || Rank(f.largest.user) < Rank(g.smallest.user))
  }

  lemma InputsOkAllowsGaps(v: Version, level: nat, in0: seq<File>, in1: seq<File>)
    requires InputsOk(v, level, in0, in1)
    ensures GapInputsOk(v, level, in0, in1)
  {
    forall f, g | f in in0 + in1 && g in v[level + 1] && g !in in1
      ensures Less(g.largest, f.smallest) || Rank(f.largest.user) < Rank(g.smallest.user)
    {
      assert Aside(g, in0 + in1);
    }
  }

  /** Files that may take the place of the inputs. */
  ghost predicate OutputsFit(v: Version, level: nat, in0: seq<File>, in1: seq<File>, outputs: seq<File>)
    requires |v| == NUM_LEVELS && level + 1 < NUM_LEVELS
  {
    && (forall o :: o in outputs ==> FileOk(o))
    && DisjointSorted(outputs)
    && EntriesOf(outputs) <= EntriesOf(in0 + in1)
    && (forall o, p :: o in outputs && p in outputs && o.number == p.number ==> o == p)
    && (forall l, g, o {:trigger g in v[l], o in outputs} ::
          0 <= l < NUM_LEVELS && g in v[l] && o in outputs && g.number == o.number ==> g in in0 + in1)
  }

  /** The version after the step, level by level. */
  ghost predicate Replaced(v: Version, level: nat, in0: seq<File>, in1: seq<File>, outputs: seq<File>, v': Version) {
    && |v| == |v'| == NUM_LEVELS && level + 1 < NUM_LEVELS
    && (forall l :: 0 <= l < NUM_LEVELS ==> InOrder(v'[l]))
    && (forall l, f {:trigger f in v'[l]} :: 0 <= l < NUM_LEVELS ==>
          (f in v'[l] <==>
           (f in v[l] && !(l == level && f in in0) && !(l == level + 1 && f in in1)) ||
               (l == level + 1 && f in outputs)))
  }

  /** Where a file of the next version comes from. */
  ghost predicate Stays(v: Version, level: nat, in0: seq<File>, in1: seq<File>, l: nat, f: File)
    requires l < |v|
  {
    f in v[l] && !(l == level && f in in0) && !(l == level + 1 && f in in1)
  }

  /** An entry of an output is an entry of an input, one level up at most. */
  lemma OutputEntry(v: Version, level: nat, in0: seq<File>, in1: seq<File>, outputs: seq<File>, o: File, e: Entry)
    returns (f: File, l: nat)
    requires GapInputsOk(v, level, in0, in1) && OutputsFit(v, level, in0, in1, outputs)
    requires o in outputs && e in o.entries
    ensures f in in0 + in1 && e in f.entries
    ensures level <= l <= level + 1 && f in v[l]
    ensures l == level ==> f in in0
  {
    assert e in EntriesOf(outputs);
    f :| f in in0 + in1 && e in f.entries;
    l := if f in in0 then level else level + 1;
  }

  lemma ReplacedFilesOk(v: Version, level: nat, in0: seq<File>, in1: seq<File>, outputs: seq<File>, v': Version)
    requires LevelsOk(v) && GapInputsOk(v, level, in0, in1) && OutputsFit(v, level, in0, in1, outputs)
    requires Replaced(v, level, in0, in1, outputs, v')
    ensures FilesOk(v')
  {
    forall l, m, f, g | 0 <= l < NUM_LEVELS && 0 <= m < NUM_LEVELS && f in v'[l] && g in v'[m] && f.number == g.number
      ensures l == m && f == g
    {
      if f in outputs && l == level + 1 {
        if !(g in outputs && m == level + 1) {
          assert Stays(v, level, in0, in1, m, g);
          StayIsNoInput(v, level, in0, in1, m, g);
        }
      } else {
        assert Stays(v, level, in0, in1, l, f);
        if g in outputs && m == level + 1 {
          StayIsNoInput(v, level, in0, in1, l, f);
        }
      }
    }
  }

  lemma StayIsNoInput(v: Version, level: nat, in0: seq<File>, in1: seq<File>, l: nat, f: File)
    requires FilesOk(v) && GapInputsOk(v, level, in0, in1) && l < NUM_LEVELS
    requires Stays(v, level, in0, in1, l, f)
    ensures f !in in0 + in1
  {
  }

  /** A file that stays holds newer versions than the outputs when it is above
      the output level, and older ones when it is below. */
  lemma StayAgainstOutput(v: Version, level: nat, in0: seq<File>, in1: seq<File>, outputs: seq<File>, l: nat, g: File,
                          o: File)
    requires LevelsOk(v) && GapInputsOk(v, level, in0, in1) && OutputsFit(v, level, in0, in1, outputs)
    requires l < NUM_LEVELS && Stays(v, level, in0, in1, l, g) && o in outputs
    ensures l <= level ==> NewerThan(g, o)
    ensures l > level + 1 ==> NewerThan(o, g)
  {
    forall e, d | e in g.entries && d in o.entries && e.key.user == d.key.user
      ensures l <= level ==> e.key.sequence > d.key.sequence
      ensures l > level + 1 ==> d.key.sequence > e.key.sequence
    {
      var f, m := OutputEntry(v, level, in0, in1, outputs, o, d);
      if l > level + 1 {
        assert NewerThan(f, g);
      } else if l <= level {
        if l == level && m == level {
          assert f in in0 && g !in in0;
        } else {
          assert l < m;
        }
        assert NewerThan(g, f);
      }
    }
  }

  lemma ReplacedRecency(v: Version, level: nat, in0: seq<File>, in1: seq<File>, outputs: seq<File>, v': Version)
    requires LevelsOk(v) && GapInputsOk(v, level, in0, in1) && OutputsFit(v, level, in0, in1, outputs)
    requires Replaced(v, level, in0, in1, outputs, v')
    ensures Recency(v')
  {
    forall l, m, f, g | 0 <= l < m < NUM_LEVELS && f in v'[l] && g in v'[m] ensures NewerThan(f, g) {
      if Stays(v, level, in0, in1, l, f) {
        if !Stays(v, level, in0, in1, m, g) {
          StayAgainstOutput(v, level, in0, in1, outputs, l, f, g);
        }
      } else {
        StayAgainstOutput(v, level, in0, in1, outputs, m, g, f);
      }
    }
    forall f, g | f in v'[0] && g in v'[0] && f.number > g.number ensures NewerThan(f, g) {
      assert f in v[0] && g in v[0];
    }
  }

  lemma ReplacedStore(v: Version, level: nat, in0: seq<File>, in1: seq<File>, outputs: seq<File>, v': Version)
    requires LevelsOk(v) && GapInputsOk(v, level, in0, in1) && OutputsFit(v, level, in0, in1, outputs)
    requires Replaced(v, level, in0, in1, outputs, v')
    ensures Store(v') <= Store(v)
    ensures Distinct(Store(v'))
  {
    forall e | e in Store(v') ensures e in Store(v) {
      var l, f :| 0 <= l < |v'| && f in v'[l] && e in f.entries;
      if Stays(v, level, in0, in1, l, f) {
        StoreHas(v, l, f, e);
      } else {
        var g, m := OutputEntry(v, level, in0, in1, outputs, f, e);
        StoreHas(v, m, g, e);
      }
    }
  }

  /** g lies strictly inside the range of o. */
  ghost predicate Spans(o: File, g: File) {
    Less(o.smallest, g.smallest) && Less(g.largest, o.largest)
  }

  lemma OutputAgainstLower(v: Version, level: nat, in0: seq<File>, in1: seq<File>, outputs: seq<File>, g: File, o: File)
    requires LevelsOk(v) && GapInputsOk(v, level, in0, in1) && OutputsFit(v, level, in0, in1, outputs)
    requires g in v[level + 1] && g !in in1 && o in outputs
    ensures !Spans(o, g) <==> Less(o.largest, g.smallest) || Less(g.largest, o.smallest)
  {
    BoundsInOrder(g);
    BoundsInOrder(o);
    forall e | e in o.entries ensures Less(g.largest, e.key) || Less(e.key, g.smallest) {
      var f, _ := OutputEntry(v, level, in0, in1, outputs, o, e);
      EntryInBounds(f, e);
    }
    assert o.entries[0] in o.entries && o.entries[|o.entries| - 1] in o.entries;
  }

  /** One level of the next version other than the output level. */
  lemma OtherLevelStaysDisjoint(v: Version, level: nat, in0: seq<File>, in1: seq<File>, outputs: seq<File>,
                                v': Version, l: nat)
    requires LevelsOk(v) && Replaced(v, level, in0, in1, outputs, v') && FilesOk(v')
    requires 1 <= l < NUM_LEVELS && l != level + 1
    ensures DisjointSorted(v'[l])
  {
    SortedIsPairwise(v[l]);
    assert forall f :: f in v'[l] ==> f in v[l];
    DisjointInOrder(v'[l]);
  }

  lemma OutputLevelDisjoint(v: Version, level: nat, in0: seq<File>, in1: seq<File>, outputs: seq<File>, v': Version)
    requires LevelsOk(v) && GapInputsOk(v, level, in0, in1) && OutputsFit(v, level, in0, in1, outputs)
    requires Replaced(v, level, in0, in1, outputs, v') && FilesOk(v')
    requires forall g, o :: g in v[level + 1] && g !in in1 && o in outputs ==> !Spans(o, g)
    ensures DisjointSorted(v'[level + 1])
  {
    SortedIsPairwise(v[level + 1]);
    SortedIsPairwise(outputs);
    forall f, g | f in v'[level + 1] && g in v'[level + 1] && f != g
      ensures Less(f.largest, g.smallest) || Less(g.largest, f.smallest)
    {
      if f in outputs && g !in outputs {
        OutputAgainstLower(v, level, in0, in1, outputs, g, f);
      } else if g in outputs && f !in outputs {
        OutputAgainstLower(v, level, in0, in1, outputs, f, g);
      }
    }
    DisjointInOrder(v'[level + 1]);
  }

  /** The step keeps the invariant exactly when no output spans a file that is
      left behind in the output level. */
  lemma ReplaceIff(v: Version, level: nat, in0: seq<File>, in1: seq<File>, outputs: seq<File>, v': Version)
    requires LevelsOk(v) && GapInputsOk(v, level, in0, in1) && OutputsFit(v, level, in0, in1, outputs)
    requires Replaced(v, level, in0, in1, outputs, v')
    ensures LevelsOk(v') <==> forall g, o :: g in v[level + 1] && g !in in1 && o in outputs ==> !Spans(o, g)
  {
    ReplacedFilesOk(v, level, in0, in1, outputs, v');
    ReplacedRecency(v, level, in0, in1, outputs, v');
    ReplacedStore(v, level, in0, in1, outputs, v');
    forall l | 1 <= l < NUM_LEVELS && l != level + 1 ensures DisjointSorted(v'[l]) {
      OtherLevelStaysDisjoint(v, level, in0, in1, outputs, v', l);
    }
    if forall g, o :: g in v[level + 1] && g !in in1 && o in outputs ==> !Spans(o, g) {
      OutputLevelDisjoint(v, level, in0, in1, outputs, v');
    } else {
      var g, o :| g in v[level + 1] && g !in in1 && o in outputs && Spans(o, g);
      SpanBreaksOrder(v, level, in0, in1, outputs, v', g, o);
    }
  }

  lemma SpanBreaksOrder(v: Version, level: nat, in0: seq<File>, in1: seq<File>, outputs: seq<File>, v': Version,
                        g: File, o: File)
    requires LevelsOk(v) && GapInputsOk(v, level, in0, in1) && OutputsFit(v, level, in0, in1, outputs)
    requires Replaced(v, level, in0, in1, outputs, v')
    requires g in v[level + 1] && g !in in1 && o in outputs && Spans(o, g)
    ensures !DisjointSorted(v'[level + 1])
  {
    OutputAgainstLower(v, level, in0, in1, outputs, g, o);
    assert g in v'[level + 1] && o in v'[level + 1];
    assert g != o;
    if DisjointSorted(v'[level + 1]) {
      SortedIsPairwise(v'[level + 1]);
    }
  }

  lemma NothingIsSpanned(v: Version, level: nat, in0: seq<File>, in1: seq<File>, outputs: seq<File>, g: File, o: File)
    requires LevelsOk(v) && InputsOk(v, level, in0, in1) && OutputsFit(v, level, in0, in1, outputs)
    requires g in v[level + 1] && g !in in1 && o in outputs
    ensures !Spans(o, g)
  {
    InputsOkAllowsGaps(v, level, in0, in1);
    var first, last := o.entries[0], o.entries[|o.entries| - 1];
    assert first in o.entries && last in o.entries;
    var f, _ := OutputEntry(v, level, in0, in1, outputs, o, first);
    var h, _ := OutputEntry(v, level, in0, in1, outputs, o, last);
    NoRoomAside(g, in0 + in1, f, h, first, last);
  }

  lemma NoRoomAside(g: File, files: seq<File>, f: File, h: File, first: Entry, last: Entry)
    requires FileOk(g) && FileOk(f) && FileOk(h) && Aside(g, files)
    requires f in files && first in f.entries && h in files && last in h.entries
    ensures !(Less(first.key, g.smallest) && Less(g.largest, last.key))
  {
    BoundsInOrder(g);
    EntryInBounds(f, first);
    EntryInBounds(h, last);
  }
}
