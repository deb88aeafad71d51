/** Which of the waiting writers a leader takes along. */
module GroupBuilding {
  import opened GroupCommit

  const SMALL := 0x2_0000
  const LARGE := 0x10_0000

  /** The bytes of these writers' batches together. */
  function Total(bytes: nat -> nat, members: seq<nat>): nat {
    if members == [] then 0 else Total(bytes, members[..|members| - 1]) + bytes(members[|members| - 1])
  }

  lemma TotalOfOneMore(bytes: nat -> nat, queue: seq<nat>, n: nat)
    requires n < |queue|
    ensures Total(bytes, queue[..n + 1]) == Total(bytes, queue[..n]) + bytes(queue[n])
  {
    assert queue[..n + 1][..n] == queue[..n];
  }

  lemma {:induction false} TotalGrows(bytes: nat -> nat, queue: seq<nat>, m: nat, n: nat)
    requires m <= n <= |queue|
    ensures Total(bytes, queue[..m]) <= Total(bytes, queue[..n])
    decreases n
  {
    if m < n {
      TotalOfOneMore(bytes, queue, n - 1);
      TotalGrows(bytes, queue, m, n - 1);
    }
  }

  function Cap(first: nat): nat {
    if first <= SMALL then first + SMALL else LARGE
  }

  /** The n first writers may go together in one group of t's. */
  ghost predicate Fits(s: State, t: nat, bytes: nat -> nat, queue: seq<nat>, n: nat)
    requires t in s.writers && n <= |queue|
  {
    && (forall i :: 1 <= i < n ==> Joins(s, t, queue[i]))
    && (n > 1 ==> Total(bytes, queue[..n]) <= Cap(bytes(t)))
  }

  /** The largest group that fits.  A small leader is delayed by little more than
      its own write, and no group of several passes the cap. */
  method BuildBatchGroup(s: State, t: nat, bytes: nat -> nat) returns (n: nat)
    requires Leads(s, t) && s.writers[t].pc.lead.Preparing? && !s.error && s.writers[t].batch.Some?
    requires Queue(s) != [] && Queue(s)[0] == t
    ensures Enabled(s, FormGroup(t, n)) && Fits(s, t, bytes, Queue(s), n)
    ensures forall m :: n < m <= |Queue(s)| ==> !Fits(s, t, bytes, Queue(s), m)
    ensures n > 1 ==> Total(bytes, Queue(s)[..n]) <= LARGE
    ensures bytes(t) <= SMALL ==> Total(bytes, Queue(s)[..n]) - bytes(t) <= SMALL
  {
    n := LongestFit(s, t, bytes, Queue(s));
    TotalOfOneMore(bytes, Queue(s), 0);
  }

  method LongestFit(s: State, t: nat, bytes: nat -> nat, queue: seq<nat>) returns (n: nat)
    requires t in s.writers && queue != [] && queue[0] == t
    ensures 1 <= n <= |queue| && Fits(s, t, bytes, queue, n)
    ensures forall m :: n < m <= |queue| ==> !Fits(s, t, bytes, queue, m)
  {
    var size := bytes(t);
    var cap := if size <= SMALL then size + SMALL else LARGE;
    n := 1;
    TotalOfOneMore(bytes, queue, 0);
    while n < |queue|
      invariant 1 <= n <= |queue| && size == Total(bytes, queue[..n]) && Fits(s, t, bytes, queue, n)
    {
      var w := queue[n];
      if w !in s.writers || (s.writers[w].sync && !s.writers[t].sync) || s.writers[w].batch.None? {
        assert !Joins(s, t, queue[n]);
        return;
      }
      TotalOfOneMore(bytes, queue, n);
      size := size + bytes(w);
      if size > cap {
        TooLarge(s, t, bytes, queue, n);
        return;
      }
      n := n + 1;
    }
  }

  lemma TooLarge(s: State, t: nat, bytes: nat -> nat, queue: seq<nat>, n: nat)
    requires t in s.writers && 1 <= n < |queue| && Cap(bytes(t)) < Total(bytes, queue[..n + 1])
    ensures forall m :: n < m <= |queue| ==> !Fits(s, t, bytes, queue, m)
  {
    forall m | n < m <= |queue| ensures !Fits(s, t, bytes, queue, m) {
      TotalGrows(bytes, queue, n + 1, m);
    }
  }
}
