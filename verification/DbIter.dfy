/** The user-facing iterator, DBIter: a cursor over the user keys whose newest
    entry at or below the snapshot is a value.

    It walks a sorted sequence of internal entries, collapsing the versions of
    each key, and changes direction in the middle of a scan.  `Shown` says which
    entries a user may see; every move is proved to go to the neighbouring shown
    entry, whatever moves came before.  `ShownIsView` ties the shown entries to
    the reads of the store. */
module DbIter {
  import opened Keys
  import opened Entries

  // ------------------------------------------------------- which entries show

  ghost predicate Seen(entries: seq<Entry>, snapshot: nat, i: int)
    requires 0 <= i < |entries|
  {
    entries[i].key.sequence <= snapshot
  }

  /** The first version of its user key that the snapshot sees, and a value. */
  ghost predicate Shown(entries: seq<Entry>, snapshot: nat, i: int)
    requires 0 <= i < |entries|
  {
    && Seen(entries, snapshot, i)
    && entries[i].key.kind.Value?
    && forall j :: 0 <= j < i && Seen(entries, snapshot, j) ==> entries[j].key.user != entries[i].key.user
  }

  lemma UsersInOrder(entries: seq<Entry>, i: int, j: int)
    requires Sorted(entries) && 0 <= i <= j < |entries|
    ensures Rank(entries[i].key.user) <= Rank(entries[j].key.user)
  {
    if i < j {
      assert Less(entries[i].key, entries[j].key);
    }
  }

  /** A shown entry is what a read of its user key returns. */
  lemma ShownIsView(entries: seq<Entry>, snapshot: nat, i: int)
    requires Sorted(entries) && Distinct(SetOf(entries)) && 0 <= i < |entries|
    requires Shown(entries, snapshot, i)
    ensures View(SetOf(entries), entries[i].key.user, snapshot) == Some(entries[i].value)
  {
    var store, user := SetOf(entries), entries[i].key.user;
    forall f | f in store && Visible(f, user, snapshot) ensures f.key.sequence <= entries[i].key.sequence {
      var j :| 0 <= j < |entries| && entries[j] == f;
      assert Seen(entries, snapshot, j);
      assert i < j ==> Less(entries[i].key, entries[j].key);
    }
    assert IsNewest(store, user, snapshot, entries[i]);
    NewestIs(store, user, snapshot, entries[i]);
  }

  /** Every user key a read can return has exactly one shown entry. */
  lemma ViewIsShown(entries: seq<Entry>, snapshot: nat, user: UserKey) returns (i: nat)
    requires Sorted(entries) && Distinct(SetOf(entries))
    requires View(SetOf(entries), user, snapshot).Some?
    ensures i < |entries| && Shown(entries, snapshot, i) && entries[i].key.user == user
    ensures forall k :: 0 <= k < |entries| && Shown(entries, snapshot, k) && entries[k].key.user == user ==> k == i
  {
    var n := Newest(SetOf(entries), user, snapshot).value;
    assert IsNewest(SetOf(entries), user, snapshot, n);
    i :| 0 <= i < |entries| && entries[i] == n;
    forall j | 0 <= j < i && Seen(entries, snapshot, j) ensures entries[j].key.user != user {
      assert Less(entries[j].key, entries[i].key);
      assert entries[j] in SetOf(entries) && entries[i] in SetOf(entries);
      assert entries[j].key.user == user ==> Visible(entries[j], user, snapshot);
    }
    assert Seen(entries, snapshot, i);
  }

  // ------------------------------------------------------------- neighbours

  /** k is the first shown entry at or after `from`, or the end. */
  ghost predicate IsFirstShown(entries: seq<Entry>, snapshot: nat, from: int, k: nat) {
    && k <= |entries|
    && (k < |entries| ==> from <= k && Shown(entries, snapshot, k))
    && (forall i :: 0 <= i < |entries| && from <= i < k ==> !Shown(entries, snapshot, i))
  }

  /** k is the last shown entry before `limit`, or the end if there is none. */
  ghost predicate IsLastShown(entries: seq<Entry>, snapshot: nat, limit: int, k: nat) {
    && k <= |entries|
    && (k < |entries| ==> k < limit && Shown(entries, snapshot, k))
    && (forall i :: 0 <= i < |entries| && i < limit && (k == |entries| || k < i) ==> !Shown(entries, snapshot, i))
  }

  /** Turning round: stepping on and back, or back and on, returns. */
  lemma TurningReturns(entries: seq<Entry>, snapshot: nat, i: nat, j: nat, k: nat)
    requires i < |entries| && Shown(entries, snapshot, i) && j < |entries|
    ensures IsFirstShown(entries, snapshot, i + 1, j) && IsLastShown(entries, snapshot, j, k) ==> k == i
    ensures IsLastShown(entries, snapshot, i, j) && IsFirstShown(entries, snapshot, j + 1, k) ==> k == i
  {
    if IsFirstShown(entries, snapshot, i + 1, j) && IsLastShown(entries, snapshot, j, k) {
      assert k < |entries| && i <= k;
    }
    if IsLastShown(entries, snapshot, i, j) && IsFirstShown(entries, snapshot, j + 1, k) {
      assert k <= i;
    }
  }

  // -------------------------------------------------- the forward skip loop

  ghost predicate SeenBefore(entries: seq<Entry>, snapshot: nat, i: int, user: UserKey)
    requires 0 <= i <= |entries|
  {
    exists j :: 0 <= j < i && Seen(entries, snapshot, j) && entries[j].key.user == user
  }

  /** Shown, and past the user keys up to `bar` that are being left behind. */
  ghost predicate Wanted(entries: seq<Entry>, snapshot: nat, bar: Option<UserKey>, k: int)
    requires 0 <= k < |entries|
  {
    Shown(entries, snapshot, k) && (bar.Some? ==> Rank(bar.value) < Rank(entries[k].key.user))
  }

  /** From index i on, what the loop skips is what is behind the bar or decided
      by an entry already passed. */
  ghost predicate Accounted(entries: seq<Entry>, snapshot: nat, bar: Option<UserKey>, i: int, skipping: bool,
                            skip: UserKey)
    requires 0 <= i <= |entries|
  {
    forall k :: i <= k < |entries| ==>
      ((skipping && Rank(entries[k].key.user) <= Rank(skip)) <==>
       (bar.Some? && Rank(entries[k].key.user) <= Rank(bar.value)) ||
           SeenBefore(entries, snapshot, i, entries[k].key.user))
  }

  /** Passing an entry that is not seen, or is hidden already, changes nothing. */
  lemma PassHidden(entries: seq<Entry>, snapshot: nat, bar: Option<UserKey>, i: nat, skipping: bool, skip: UserKey)
    requires Sorted(entries) && i < |entries| && Accounted(entries, snapshot, bar, i, skipping, skip)
    requires !Seen(entries, snapshot, i) || (skipping && Rank(entries[i].key.user) <= Rank(skip))
    ensures Accounted(entries, snapshot, bar, i + 1, skipping, skip)
    ensures !Wanted(entries, snapshot, bar, i)
  {
    forall k | i + 1 <= k < |entries|
      ensures (skipping && Rank(entries[k].key.user) <= Rank(skip)) <==>
              (bar.Some? && Rank(entries[k].key.user) <= Rank(bar.value)) ||
                  SeenBefore(entries, snapshot, i + 1, entries[k].key.user)
    {
      var user := entries[k].key.user;
      assert SeenBefore(entries, snapshot, i, user) ==> SeenBefore(entries, snapshot, i + 1, user);
      if SeenBefore(entries, snapshot, i + 1, user) && !SeenBefore(entries, snapshot, i, user) {
        assert entries[i].key.user == user && Seen(entries, snapshot, i);
      }
    }
  }

  /** Passing a tombstone makes its user key the one to skip. */
  lemma PassTombstone(entries: seq<Entry>, snapshot: nat, bar: Option<UserKey>, i: nat, skipping: bool, skip: UserKey)
    requires Sorted(entries) && i < |entries| && Accounted(entries, snapshot, bar, i, skipping, skip)
    requires Seen(entries, snapshot, i) && entries[i].key.kind.Deletion?
    requires bar.Some? ==> Rank(bar.value) <= Rank(entries[i].key.user)
    ensures Accounted(entries, snapshot, bar, i + 1, true, entries[i].key.user)
    ensures !Wanted(entries, snapshot, bar, i)
  {
    forall k | i + 1 <= k < |entries|
      ensures Rank(entries[k].key.user) <= Rank(entries[i].key.user) <==>
              (bar.Some? && Rank(entries[k].key.user) <= Rank(bar.value)) ||
                  SeenBefore(entries, snapshot, i + 1, entries[k].key.user)
    {
      var user := entries[k].key.user;
      UsersInOrder(entries, i, k);
      RankIsLexicographic(user, entries[i].key.user);
      if SeenBefore(entries, snapshot, i + 1, user) {
        var j :| 0 <= j < i + 1 && Seen(entries, snapshot, j) && entries[j].key.user == user;
        UsersInOrder(entries, j, i);
      }
    }
  }

  /** A seen value that is not being skipped is the one wanted. */
  lemma StopAtValue(entries: seq<Entry>, snapshot: nat, bar: Option<UserKey>, i: nat, skipping: bool, skip: UserKey)
    requires i < |entries| && Accounted(entries, snapshot, bar, i, skipping, skip)
    requires Seen(entries, snapshot, i) && entries[i].key.kind.Value?
    requires !(skipping && Rank(entries[i].key.user) <= Rank(skip))
    ensures Wanted(entries, snapshot, bar, i)
  {
    assert !SeenBefore(entries, snapshot, i, entries[i].key.user);
  }

  // ------------------------------------------------- the backward skip loop

  /** Of the entries in [n, end), none is shown but possibly the candidate c,
      which is the first seen one of them. */
  ghost predicate Candidate(entries: seq<Entry>, snapshot: nat, n: nat, end: nat, c: nat) {
    && n <= c < end <= |entries|
    && Seen(entries, snapshot, c) && entries[c].key.kind.Value?
    && (forall k :: n <= k < c ==> !Seen(entries, snapshot, k))
    && (forall k :: n <= k < end && k != c ==> !Shown(entries, snapshot, k))
  }

  ghost predicate NoneShown(entries: seq<Entry>, snapshot: nat, n: nat, end: nat) {
    end <= |entries| && forall k :: n <= k < end ==> !Shown(entries, snapshot, k)
  }

  /** The next seen entry down belongs to the candidate's key: it replaces it. */
  lemma CandidateHidden(entries: seq<Entry>, snapshot: nat, n: nat, end: nat, c: nat)
    requires Sorted(entries) && n > 0 && Candidate(entries, snapshot, n, end, c)
    requires Seen(entries, snapshot, n - 1) && Rank(entries[c].key.user) <= Rank(entries[n - 1].key.user)
    ensures NoneShown(entries, snapshot, n, end)
  {
    UsersInOrder(entries, n - 1, c);
    RankIsLexicographic(entries[n - 1].key.user, entries[c].key.user);
    assert !Shown(entries, snapshot, c);
  }

  /** The next seen entry down belongs to a smaller key, or there is none: the
      candidate stands. */
  lemma CandidateStands(entries: seq<Entry>, snapshot: nat, n: nat, end: nat, c: nat)
    requires Sorted(entries) && Candidate(entries, snapshot, n, end, c)
    requires n > 0 ==> Seen(entries, snapshot, n - 1) && Rank(entries[n - 1].key.user) < Rank(entries[c].key.user)
    ensures Shown(entries, snapshot, c)
    ensures IsLastShown(entries, snapshot, end, c)
  {
    forall j | 0 <= j < c && Seen(entries, snapshot, j) ensures entries[j].key.user != entries[c].key.user {
      assert j < n;
      UsersInOrder(entries, j, n - 1);
    }
  }

  // --------------------------------------------------- starting a scan

  /** Leaving a shown entry forwards: only its own user key has to be skipped. */
  lemma AccountedPastShown(entries: seq<Entry>, snapshot: nat, i: nat)
    requires Sorted(entries) && i < |entries|
    ensures Accounted(entries, snapshot, Some(entries[i].key.user), i + 1, true, entries[i].key.user)
    ensures forall k :: i <= k < |entries| ==> Rank(entries[i].key.user) <= Rank(entries[k].key.user)
  {
    forall k | i <= k < |entries|
      ensures Rank(entries[i].key.user) <= Rank(entries[k].key.user)
      ensures SeenBefore(entries, snapshot, i + 1, entries[k].key.user) ==>
                Rank(entries[k].key.user) <= Rank(entries[i].key.user)
    {
      UsersInOrder(entries, i, k);
      if SeenBefore(entries, snapshot, i + 1, entries[k].key.user) {
        var j :| 0 <= j < i + 1 && Seen(entries, snapshot, j) && entries[j].key.user == entries[k].key.user;
        UsersInOrder(entries, j, i);
      }
    }
  }

  /** Where a seek lands, no user key has been decided yet. */
  lemma AccountedFromLookup(entries: seq<Entry>, snapshot: nat, target: UserKey)
    requires Sorted(entries)
    ensures var p := FirstAtOrAfter(entries, LookupKey(target, snapshot));
            && Accounted(entries, snapshot, None, p, false, target)
            && (forall i :: 0 <= i < p && Seen(entries, snapshot, i) ==> Rank(entries[i].key.user) < Rank(target))
            && (forall i :: p <= i < |entries| ==> Rank(target) <= Rank(entries[i].key.user))
  {
    var p := FirstAtOrAfter(entries, LookupKey(target, snapshot));
    forall i | 0 <= i < p && Seen(entries, snapshot, i) ensures Rank(entries[i].key.user) < Rank(target) {
      LookupKeySplits(entries[i].key, target, snapshot);
      RankIsLexicographic(entries[i].key.user, target);
    }
    forall i | p <= i < |entries| ensures Rank(target) <= Rank(entries[i].key.user) {
      UsersInOrder(entries, p, i);
    }
  }

  lemma WantedIsNextShown(entries: seq<Entry>, snapshot: nat, from: nat, start: nat, k: nat)
    requires Sorted(entries) && from < |entries| && Shown(entries, snapshot, from) && start <= from + 1
    requires k <= |entries|
    requires k < |entries| ==> start <= k && Wanted(entries, snapshot, Some(entries[from].key.user), k)
    requires forall i :: start <= i < k ==> !Wanted(entries, snapshot, Some(entries[from].key.user), i)
    ensures IsFirstShown(entries, snapshot, from + 1, k)
  {
    if k <= from {
      UsersInOrder(entries, k, from);
    }
    forall i | from + 1 <= i < k ensures !Shown(entries, snapshot, i) {
      UsersInOrder(entries, from, i);
      RankIsLexicographic(entries[from].key.user, entries[i].key.user);
      assert !Wanted(entries, snapshot, Some(entries[from].key.user), i);
    }
  }

  lemma LastShownBelow(entries: seq<Entry>, snapshot: nat, from: nat, limit: nat, k: nat)
    requires Sorted(entries) && from < |entries| && Shown(entries, snapshot, from) && limit <= from
    requires forall i :: limit <= i < from && Seen(entries, snapshot, i) ==>
               Rank(entries[from].key.user) <= Rank(entries[i].key.user)
    requires IsLastShown(entries, snapshot, limit, k)
    ensures IsLastShown(entries, snapshot, from, k)
  {
    forall i | limit <= i < from ensures !Shown(entries, snapshot, i) {
      UsersInOrder(entries, i, from);
      RankIsLexicographic(entries[from].key.user, entries[i].key.user);
    }
  }

  datatype Direction = Forward | Reverse

  class Iter {
    const entries: seq<Entry>
    const snapshot: nat

    // The internal iterator: an index, out of range when it is not valid.
    var pos: nat

    var savedKey: UserKey
    var savedValue: Bytes
    var direction: Direction
    var valid: bool

    /** The shown entry the iterator stands on, or the end. */
    ghost var at: nat

    /** Where a reverse scan leaves the internal iterator: on the last seen
        entry of a smaller user key, or past the front. */
    ghost predicate Behind(p: nat, user: UserKey) {
      && p <= |entries|
      && (p < |entries| ==> Seen(entries, snapshot, p) && Rank(entries[p].key.user) < Rank(user))
      && (forall j :: 0 <= j < |entries| && (p == |entries| || p < j) && Seen(entries, snapshot, j) ==>
            Rank(user) <= Rank(entries[j].key.user))
    }

    ghost predicate Valid()
      reads this
    {
      && Sorted(entries)
      && pos <= |entries| && at <= |entries|
      && valid == (at < |entries|)
      && (valid ==> Shown(entries, snapshot, at))
      && (valid && direction.Forward? ==> pos == at)
      && (valid && direction.Reverse? ==>
            savedKey == entries[at].key.user && savedValue == entries[at].value && Behind(pos, savedKey))
    }

    constructor (entries: seq<Entry>, snapshot: nat)
      requires Sorted(entries)
      ensures Valid() && this.entries == entries && this.snapshot == snapshot && !valid
    {
      this.entries, this.snapshot := entries, snapshot;
      pos, at := |entries|, |entries|;
      savedKey, savedValue := [], [];
      direction, valid := Forward, false;
    }

    /** key(): the user key of the shown entry. */
    method Key() returns (k: UserKey)
      requires Valid() && valid
      ensures k == entries[at].key.user
    {
      k := if direction.Forward? then entries[pos].key.user else savedKey;
    }

    method GetValue() returns (v: Bytes)
      requires Valid() && valid
      ensures v == entries[at].value
    {
      v := if direction.Forward? then entries[pos].value else savedValue;
    }
  
    /** The loop of find_next_user_entry.  `savedKey` is the key to skip. */
    method FindNextUserEntry(skipping: bool, ghost bar: Option<UserKey>)
      requires Sorted(entries) && pos < |entries| && direction.Forward?
      requires Accounted(entries, snapshot, bar, pos, skipping, savedKey)
      requires bar.Some? ==> forall k :: pos <= k < |entries| && Seen(entries, snapshot, k) ==>
                 Rank(bar.value) <= Rank(entries[k].key.user)
      modifies this
      ensures Valid() && direction.Forward?
      ensures at < |entries| ==> old(pos) <= at && Wanted(entries, snapshot, bar, at)
      ensures forall k :: old(pos) <= k < at ==> !Wanted(entries, snapshot, bar, k)
    {
      var skip := skipping;
      while pos < |entries|
        invariant old(pos) <= pos <= |entries| && direction.Forward?
        invariant Accounted(entries, snapshot, bar, pos, skip, savedKey)
        invariant forall k :: old(pos) <= k < pos ==> !Wanted(entries, snapshot, bar, k)
        decreases |entries| - pos
      {
        var entry := entries[pos];
        if entry.key.sequence <= snapshot {
          if entry.key.kind.Deletion? {
            PassTombstone(entries, snapshot, bar, pos, skip, savedKey);
            savedKey := entry.key.user;
            skip := true;
          } else if skip && Compare(entry.key.user, savedKey) <= 0 {
            PassHidden(entries, snapshot, bar, pos, skip, savedKey);
          } else {
            StopAtValue(entries, snapshot, bar, pos, skip, savedKey);
            valid := true;
            savedKey := [];
            at := pos;
            return;
          }
        } else {
          PassHidden(entries, snapshot, bar, pos, skip, savedKey);
        }
        pos := pos + 1;
      }
      savedKey := [];
      valid := false;
      at := |entries|;
    }
  
    /** The loop of find_prev_user_entry, from the entry the internal iterator
        is on down to the front. */
    method FindPrevUserEntry()
      requires Sorted(entries) && pos <= |entries| && direction.Reverse?
      modifies this
      ensures Valid()
      ensures IsLastShown(entries, snapshot, if old(pos) < |entries| then old(pos) + 1 else 0, at)
    {
      ghost var end := if pos < |entries| then pos + 1 else 0;
      ghost var n := end;  // entries still to look at
      ghost var c: nat := 0;
      var kind := Deletion;
      while pos < |entries|
        invariant n <= end <= |entries| && pos == (if n == 0 then |entries| else n - 1)
        invariant direction.Reverse?
        invariant kind.Deletion? ==> NoneShown(entries, snapshot, n, end)
        invariant kind.Value? ==> Candidate(entries, snapshot, n, end, c)
        invariant kind.Value? ==> savedKey == entries[c].key.user && savedValue == entries[c].value
        decreases n
      {
        var entry := entries[pos];
        if entry.key.sequence <= snapshot {
          if kind.Value? && Compare(entry.key.user, savedKey) < 0 {
            break;
          }
          if kind.Value? {
            CandidateHidden(entries, snapshot, n, end, c);
          }
          kind := entry.key.kind;
          if kind.Deletion? {
            savedKey, savedValue := [], [];
          } else {
            savedKey, savedValue := entry.key.user, entry.value;
            c := pos;
          }
        }
        n := n - 1;
        pos := if pos == 0 then |entries| else pos - 1;
      }
      if kind.Deletion? {
        valid := false;
        at := |entries|;
        savedKey, savedValue := [], [];
        direction := Forward;
      } else {
        CandidateStands(entries, snapshot, n, end, c);
        BehindCandidate(n, end, c);
        valid := true;
        at := c;
      }
    }

    lemma BehindCandidate(n: nat, end: nat, c: nat)
      requires Sorted(entries) && Candidate(entries, snapshot, n, end, c)
      requires n > 0 ==> Seen(entries, snapshot, n - 1) && Rank(entries[n - 1].key.user) < Rank(entries[c].key.user)
      ensures Behind(if n == 0 then |entries| else n - 1, entries[c].key.user)
    {
      forall j | 0 <= j < |entries| && n <= j && Seen(entries, snapshot, j)
        ensures Rank(entries[c].key.user) <= Rank(entries[j].key.user)
      {
        UsersInOrder(entries, c, j);
      }
    }
  
    /** Leaving a reverse scan: from just past the internal iterator on, only
        the current user key has to be skipped. */
    lemma AccountedFromBehind(p: nat, i: nat)
      requires Sorted(entries) && i < |entries| && Seen(entries, snapshot, i) && Behind(p, entries[i].key.user)
      ensures var q := if p < |entries| then p + 1 else 0; var user := entries[i].key.user;
              && q <= i
              && Accounted(entries, snapshot, Some(user), q, true, user)
              && forall k :: q <= k < |entries| && Seen(entries, snapshot, k) ==>
                  Rank(user) <= Rank(entries[k].key.user)
    {
      var q := if p < |entries| then p + 1 else 0;
      var user := entries[i].key.user;
      if i < q {
        UsersInOrder(entries, i, p);
      }
      forall k | q <= k < |entries| && SeenBefore(entries, snapshot, q, entries[k].key.user)
        ensures Rank(entries[k].key.user) <= Rank(user)
      {
        var j :| 0 <= j < q && Seen(entries, snapshot, j) && entries[j].key.user == entries[k].key.user;
        UsersInOrder(entries, j, p);
      }
    }

    // --------------------------------------------------------- the moves

    /** next(): the first shown entry after the one the iterator is on. */
    method Next()
      requires Valid() && valid
      modifies this
      ensures Valid()
      ensures IsFirstShown(entries, snapshot, old(at) + 1, at)
    {
      ghost var from, user := at, entries[at].key.user;
      if direction.Reverse? {
        AccountedFromBehind(pos, at);
        direction := Forward;
        pos := if pos < |entries| then pos + 1 else 0;
      } else {
        savedKey := entries[pos].key.user;
        AccountedPastShown(entries, snapshot, pos);
        pos := pos + 1;
        if pos == |entries| {
          valid := false;
          at := |entries|;
          savedKey := [];
          return;
        }
      }
      ghost var start := pos;
      FindNextUserEntry(true, Some(user));
      WantedIsNextShown(entries, snapshot, from, start, at);
    }

    /** prev(): the last shown entry before the one the iterator is on. */
    method Prev()
      requires Valid() && valid
      modifies this
      ensures Valid()
      ensures IsLastShown(entries, snapshot, old(at), at)
    {
      ghost var from, user := at, entries[at].key.user;
      if direction.Forward? {
        savedKey := entries[pos].key.user;
        while true
          invariant Sorted(entries) && savedKey == user && direction.Forward?
          invariant pos <= from < |entries| && Shown(entries, snapshot, from)
          invariant forall i :: pos <= i < from ==> Rank(user) <= Rank(entries[i].key.user)
          decreases pos
        {
          if pos == 0 {
            pos := |entries|;
            valid := false;
            at := |entries|;
            savedKey, savedValue := [], [];
            LastShownBelow(entries, snapshot, from, 0, at);
            return;
          }
          pos := pos - 1;
          if Compare(entries[pos].key.user, savedKey) < 0 {
            break;
          }
        }
        direction := Reverse;
      }
      ghost var limit := if pos < |entries| then pos + 1 else 0;
      FindPrevUserEntry();
      LastShownBelow(entries, snapshot, from, limit, at);
    }

    /** seek(target): the first shown entry whose user key is at or after it. */
    method Seek(target: UserKey)
      requires Valid()
      modifies this
      ensures Valid()
      ensures at < |entries| ==> Rank(target) <= Rank(entries[at].key.user)
      ensures forall i :: 0 <= i < at && Shown(entries, snapshot, i) ==> Rank(entries[i].key.user) < Rank(target)
    {
      direction := Forward;
      savedValue := [];
      savedKey := target;
      pos := FirstAtOrAfter(entries, LookupKey(target, snapshot));
      AccountedFromLookup(entries, snapshot, target);
      ghost var start := pos;
      if pos < |entries| {
        FindNextUserEntry(false, None);
        assert forall i :: start <= i < at ==> Wanted(entries, snapshot, None, i) == Shown(entries, snapshot, i);
      } else {
        valid := false;
        at := |entries|;
      }
    }

    method SeekToFirst()
      requires Valid()
      modifies this
      ensures Valid()
      ensures IsFirstShown(entries, snapshot, 0, at)
    {
      direction := Forward;
      savedValue := [];
      pos := 0;
      ghost var start := pos;
      if pos < |entries| {
        FindNextUserEntry(false, None);
        assert forall i :: start <= i < at ==> Wanted(entries, snapshot, None, i) == Shown(entries, snapshot, i);
      } else {
        valid := false;
        at := |entries|;
      }
    }

    method SeekToLast()
      requires Valid()
      modifies this
      ensures Valid()
      ensures IsLastShown(entries, snapshot, |entries|, at)
    {
      direction := Reverse;
      savedValue := [];
      pos := if |entries| == 0 then 0 else |entries| - 1;
      FindPrevUserEntry();
    }
  }
}
