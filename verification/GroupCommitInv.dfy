/** What every interleaving of the writer queue keeps. */
module GroupCommitInv {
  import opened Entries
  import opened GroupCommit

  predicate PrePop(lead: Lead) {
    lead.Preparing? || lead.Stalled? || lead.Logging? || lead.Logged?
  }

  predicate HoldsMutex(lead: Lead) {
    !lead.Stalled? && !lead.Logging? && !lead.Logged?
  }

  /** The next leader has been named. */
  predicate Handed(lead: Lead) {
    lead.RousingNext? || lead.Leaving?
  }

  /** How many of its group a leader has still to answer. */
  function Left(lead: Lead): nat {
    match lead
    case Answering(n, _) => n
    case Rousing(_, n, _) => n
    case _ => 0
  }

  function LeadOf(s: State): Option<Lead> {
    if s.leader.Some? && Leads(s, s.leader.value) then Some(s.writers[s.leader.value].pc.lead) else None
  }

  ghost predicate Arrived(s: State) {
    && s.popped <= |s.arrivals|
    && (forall i, j :: 0 <= i < j < |s.arrivals| ==> s.arrivals[i] != s.arrivals[j])
    && (forall i :: 0 <= i < |s.arrivals| ==> s.arrivals[i] in s.writers && !s.writers[s.arrivals[i]].pc.Entering?)
    && (forall t :: t in s.writers && !s.writers[t].pc.Entering? ==> t in s.arrivals)
  }

  /** The leader is about to wake t. */
  ghost predicate Roused(s: State, t: nat) {
    var lead := LeadOf(s);
    lead.Some? && (lead.value.Rousing? || lead.value.RousingNext?) && lead.value.w == t
  }

  /** A writer's flag and where it is: asleep, its flag says so or it is being
      woken, so that no wake-up is missed. */
  ghost predicate WriterOk(s: State, t: nat)
    requires t in s.writers
  {
    var w := s.writers[t];
    && (w.pc.Leading? <==> s.leader == Some(t))
    && (w.flag.Done? ==> w.answer.Some?)
    && (w.answer.Some? ==> w.flag.Done? || w.pc.Returned?)
    && (Roused(s, t) ==> (w.pc.Asleep? || w.pc.Waking?) && (w.flag.Done? || w.flag.Promoted?))
    && match w.pc
       case Entering => w.flag.Waiting? && w.answer.None?
       case Spinning => !w.flag.Parked?
       case Rechecking => !w.flag.Parked?
       case Asleep => w.flag.Parked? || Roused(s, t)
       case Waking => !w.flag.Waiting?
       case Leading(_) => (w.flag.Waiting? || w.flag.Promoted?) && w.answer.None?
       case Returned => w.answer.Some?
  }

  ghost predicate WritersOk(s: State) {
    forall t :: t in s.writers ==> WriterOk(s, t)
  }

  /** Those in the queue are unanswered and not gone; the first of them is
      promoted exactly when no one leads before it. */
  ghost predicate QueuedOk(s: State, i: nat)
    requires s.popped <= i < |s.arrivals| && s.arrivals[i] in s.writers
  {
    var w, lead := s.writers[s.arrivals[i]], LeadOf(s);
    && w.answer.None? && !w.pc.Returned? && !w.flag.Done?
    && (s.leader == Some(s.arrivals[i]) ==> i == s.popped && lead.Some? && PrePop(lead.value))
    && (i != s.popped ==> !w.flag.Promoted?)
    && (i == s.popped && (lead.None? || Handed(lead.value)) ==> w.flag.Promoted?)
    && (i == s.popped && lead.Some? && !Handed(lead.value) && !PrePop(lead.value) ==> !w.flag.Promoted?)
  }

  ghost predicate QueueOk(s: State)
    requires Arrived(s)
  {
    forall i :: s.popped <= i < |s.arrivals| ==> QueuedOk(s, i)
  }

  /** Those that left the queue are answered, but for the leader itself. */
  ghost predicate PoppedOk(s: State)
    requires Arrived(s)
  {
    forall i :: 0 <= i < s.popped ==> s.writers[s.arrivals[i]].answer.Some? || s.leader == Some(s.arrivals[i])
  }

  ghost predicate Carries(s: State, k: nat, i: nat) {
    k < |s.log| && s.log[k].start <= i < s.log[k].start + s.log[k].n
  }

  /** The batch of arrival i is in a record that was written. */
  ghost predicate Carried(s: State, i: nat) {
    exists k: nat :: Carries(s, k, i) && s.log[k].ok
  }

  predicate OkOf(lead: Lead) {
    match lead
    case Logged(_, ok) => ok
    case Answering(_, ok) => ok
    case Rousing(_, _, ok) => ok
    case RousingNext(_, ok) => ok
    case Leaving(ok) => ok
    case _ => false
  }

  ghost predicate LeaderOk(s: State)
    requires Arrived(s)
  {
    && (s.leader.None? ==> s.mutex.None?)
    && (s.leader.Some? ==> LeadOf(s).Some? && LeadingOk(s, s.leader.value, LeadOf(s).value))
  }

  ghost predicate LeadingOk(s: State, t: nat, lead: Lead)
    requires Arrived(s) && t in s.writers
  {
    && s.mutex == (if HoldsMutex(lead) then Some(t) else None)
    && (PrePop(lead) ==> s.popped < |s.arrivals| && s.arrivals[s.popped] == t)
    && (!PrePop(lead) ==> t in s.arrivals[..s.popped])
    && (lead.Logging? || lead.Logged? ==> GroupOk(s, t, lead.n))
    && s.popped + Left(lead) <= |s.arrivals|
    && (lead.Rousing? ==> lead.w in s.writers)
    && (lead.RousingNext? ==> s.popped < |s.arrivals| && s.arrivals[s.popped] == lead.w)
  }

  /** A group formed by t: itself and those that may join it. */
  ghost predicate GroupOk(s: State, t: nat, n: nat)
    requires Arrived(s) && t in s.writers
  {
    && 1 <= n <= |s.arrivals| - s.popped && s.writers[t].batch.Some?
    && forall i :: s.popped < i < s.popped + n ==> Joins(s, t, s.arrivals[i])
  }

  // ------------------------------------------------------------------- the log

  function NextFirst(log: seq<Record>): nat {
    if log == [] then 1 else log[|log| - 1].first + log[|log| - 1].count
  }

  function EndOfLog(log: seq<Record>): nat {
    if log == [] then 0 else log[|log| - 1].start + log[|log| - 1].n
  }

  /** Records follow the queue, and their entries are numbered without a gap. */
  ghost predicate LogOrdered(log: seq<Record>) {
    forall k :: 0 <= k < |log| ==> log[k].first == NextFirst(log[..k]) && EndOfLog(log[..k]) <= log[k].start
  }

  /** Every writer in a record has a batch, and asked for sync only if the
      record was synced. */
  ghost predicate RecordOk(s: State, r: Record)
    requires Arrived(s)
  {
    && r.start + r.n <= |s.arrivals|
    && forall i :: r.start <= i < r.start + r.n ==>
         s.writers[s.arrivals[i]].batch.Some? && (s.writers[s.arrivals[i]].sync ==> r.synced)
  }

  ghost predicate LogOk(s: State)
    requires Arrived(s)
  {
    && LogOrdered(s.log)
    && (forall k :: 0 <= k < |s.log| ==> RecordOk(s, s.log[k]))
    && var lead := LeadOf(s);
       if lead.Some? && lead.value.Logged? then
         && s.log != [] && s.log[|s.log| - 1].first == s.last + 1 && s.log[|s.log| - 1].start == s.popped
         && s.log[|s.log| - 1].n == lead.value.n && s.log[|s.log| - 1].ok == lead.value.ok
       else
         && NextFirst(s.log) == s.last + 1
         && EndOfLog(s.log) <= s.popped + (if lead.Some? then Left(lead.value) else 0)
  }

  /** A writer with a batch is told how that went. */
  predicate Told(w: Writer, carried: bool) {
    w.answer.Some? && w.batch.Some? ==> (w.answer.value <==> carried)
  }

  /** Whoever has been told was told the truth; those still to be told, and the
      leader, will be. */
  ghost predicate AnswersOk(s: State)
    requires Arrived(s)
  {
    && (forall i :: 0 <= i < |s.arrivals| ==> Told(s.writers[s.arrivals[i]], Carried(s, i)))
    && var lead := LeadOf(s);
       (lead.Some? && !PrePop(lead.value) ==>
          && (forall i :: 0 <= i < s.popped && s.leader == Some(s.arrivals[i]) ==>
                s.writers[s.arrivals[i]].batch.Some? ==> (OkOf(lead.value) <==> Carried(s, i)))
          && (forall i :: s.popped <= i < s.popped + Left(lead.value) ==> (OkOf(lead.value) <==> Carried(s, i))))
  }

  ghost predicate Inv(s: State) {
    Arrived(s) && WritersOk(s) && QueueOk(s) && PoppedOk(s) && LeaderOk(s) && LogOk(s) && AnswersOk(s)
  }
}
