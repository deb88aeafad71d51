/** should_stop_before: how much of the level two below an output has come to
    overlap, counted as the inputs go by. */
module Grandparents {
  import opened Keys
  import opened Entries
  import opened Levels
  import opened CompactionInputs

  /** The files that end before a key, in a sorted level: the first n. */
  ghost predicate EndBefore(files: seq<File>, n: nat, key: InternalKey) {
    && n <= |files| && (forall i :: 0 <= i < n ==> Less(files[i].largest, key))
    && (n < |files| ==> AtMost(key, files[n].largest))
  }

  /** The part of a Compaction that should_stop_before reads and moves. */
  class OverlapCounter {
    const grandparents: seq<File>
    const maxOutputSize: nat
    var index: nat
    var seenKey: bool
    var overlapped: nat
    ghost var since: nat
    ghost var asked: Option<InternalKey>

    /** `since` is where the count began: at the first key asked about, or where
        the last cut was. */
    ghost predicate Valid()
      reads this
    {
      && since <= index <= |grandparents| && overlapped == TotalFileSize(grandparents[since..index])
      && (asked.None? ==> index == 0) && (asked.Some? ==> EndBefore(grandparents, index, asked.value))
      && (seenKey <==> asked.Some?)
    }

    constructor (grandparents: seq<File>, maxOutputSize: nat)
      ensures Valid() && asked == None && this.grandparents == grandparents && this.maxOutputSize == maxOutputSize
    {
      this.grandparents, this.maxOutputSize := grandparents, maxOutputSize;
      index, seenKey, overlapped := 0, false, 0;
      since, asked := 0, None;
    }

    /** Exact, for keys asked in order: the files that ended since the count
        began are more than ten outputs' worth. */
    method ShouldStopBefore(key: InternalKey) returns (stop: bool)
      requires Valid() && (asked.Some? ==> AtMost(asked.value, key))
      modifies this
      ensures Valid() && asked == Some(key)
      ensures old(asked).None? ==> !stop && since == index
      ensures old(asked).Some? ==>
                && (stop <==> TotalFileSize(grandparents[old(since)..index]) > 10 * maxOutputSize)
                && since == if stop then index else old(since)
    {
      while index < |grandparents| && CompareInternal(key, grandparents[index].largest) > 0
        invariant old(since) <= index <= |grandparents| && seenKey == old(seenKey)
        invariant forall i :: 0 <= i < index ==> Less(grandparents[i].largest, key)
        invariant since == if seenKey then old(since) else index
        invariant overlapped == TotalFileSize(grandparents[since..index])
      {
        if seenKey {
          TotalOfMore(grandparents[since..index], grandparents[index]);
          assert grandparents[since..index] + [grandparents[index]] == grandparents[since..index + 1];
          overlapped := overlapped + grandparents[index].size;
        } else {
          since := index + 1;
        }
        index := index + 1;
      }
      seenKey := true;
      asked := Some(key);
      stop := false;
      if overlapped > 10 * maxOutputSize {
        overlapped := 0;
        since := index;
        stop := true;
      }
    }
  }
}
