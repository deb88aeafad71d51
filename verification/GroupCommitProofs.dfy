/** Each step of the writer queue keeps the invariant. */
module GroupCommitProofs {
  import opened Entries
  import opened GroupCommit
  import opened GroupCommitInv

  // ----------------------------------------------- a waiting writer's own steps

  /** Only t's own place changes, and t does not lead. */
  ghost predicate Moves(s: State, t: nat, w: Writer) {
    && t in s.writers && s.leader != Some(t) && !w.pc.Leading?
    && !w.pc.Entering? && !s.writers[t].pc.Entering? && !s.writers[t].pc.Returned?
    && w.batch == s.writers[t].batch && w.sync == s.writers[t].sync && w.answer == s.writers[t].answer
    && w.flag.Promoted? == s.writers[t].flag.Promoted? && w.flag.Done? == s.writers[t].flag.Done?
    && (w.pc.Returned? ==> w.answer.Some?)
  }

  lemma MoveKeepsArrived(s: State, t: nat, w: Writer)
    requires Arrived(s) && Moves(s, t, w)
    ensures Arrived(Put(s, t, w)) && LeadOf(Put(s, t, w)) == LeadOf(s)
  {
  }

  lemma MoveKeepsQueue(s: State, t: nat, w: Writer)
    requires Arrived(s) && QueueOk(s) && Moves(s, t, w)
    ensures Arrived(Put(s, t, w)) && QueueOk(Put(s, t, w))
  {
    var n := Put(s, t, w);
    MoveKeepsArrived(s, t, w);
    forall i | n.popped <= i < |n.arrivals| ensures QueuedOk(n, i) {
      assert QueuedOk(s, i);
    }
  }

  lemma MoveKeepsLeader(s: State, t: nat, w: Writer)
    requires Arrived(s) && PoppedOk(s) && LeaderOk(s) && Moves(s, t, w)
    ensures Arrived(Put(s, t, w)) && PoppedOk(Put(s, t, w)) && LeaderOk(Put(s, t, w))
  {
    MoveKeepsArrived(s, t, w);
  }

  lemma CarriedSame(s: State, n: State, i: nat)
    requires n.log == s.log
    ensures Carried(n, i) == Carried(s, i)
  {
    if Carried(s, i) {
      var k: nat :| Carries(s, k, i) && s.log[k].ok;
      assert Carries(n, k, i);
    }
    if Carried(n, i) {
      var k: nat :| Carries(n, k, i) && n.log[k].ok;
      assert Carries(s, k, i);
    }
  }

  /** The log, and what its records say of the writers in them, stay. */
  ghost predicate SameRecords(s: State, n: State)
    requires Arrived(s) && Arrived(n)
  {
    && n.log == s.log && n.last == s.last && |s.arrivals| <= |n.arrivals|
    && forall i :: 0 <= i < |s.arrivals| ==>
         && n.arrivals[i] == s.arrivals[i]
         && n.writers[s.arrivals[i]].batch == s.writers[s.arrivals[i]].batch
         && n.writers[s.arrivals[i]].sync == s.writers[s.arrivals[i]].sync
  }

  lemma RecordsFrame(s: State, n: State)
    requires Arrived(s) && Arrived(n) && SameRecords(s, n) && forall k :: 0 <= k < |s.log| ==> RecordOk(s, s.log[k])
    ensures forall k :: 0 <= k < |n.log| ==> RecordOk(n, n.log[k])
  {
    forall k | 0 <= k < |n.log| ensures RecordOk(n, n.log[k]) {
      assert RecordOk(s, s.log[k]);
    }
  }

  /** With the leader where it was, or just taking the lead. */
  lemma LogFrame(s: State, n: State)
    requires Arrived(s) && Arrived(n) && SameRecords(s, n) && LogOk(s) && n.popped == s.popped
    requires LeadOf(n) == LeadOf(s) || (LeadOf(s) == None && LeadOf(n) == Some(Preparing))
    ensures LogOk(n)
  {
    RecordsFrame(s, n);
  }

  ghost predicate SameAnswers(s: State, n: State)
    requires Arrived(s) && Arrived(n) && SameRecords(s, n)
  {
    && (forall i :: 0 <= i < |s.arrivals| ==> n.writers[s.arrivals[i]].answer == s.writers[s.arrivals[i]].answer)
    && (forall i :: |s.arrivals| <= i < |n.arrivals| ==> n.writers[n.arrivals[i]].answer.None?)
  }

  lemma AnswersFrame(s: State, n: State)
    requires Arrived(s) && Arrived(n) && SameRecords(s, n) && SameAnswers(s, n) && AnswersOk(s) && n.popped == s.popped
    requires (LeadOf(n) == LeadOf(s) && n.leader == s.leader) || (LeadOf(s) == None && LeadOf(n) == Some(Preparing))
    ensures AnswersOk(n)
  {
    forall i: nat ensures Carried(n, i) == Carried(s, i) {
      CarriedSame(s, n, i);
    }
  }

  /** A place that goes with the flag. */
  ghost predicate Placed(s: State, t: nat, w: Writer) {
    match w.pc
    case Spinning => !w.flag.Parked? && !Roused(s, t)
    case Rechecking => !w.flag.Parked? && !Roused(s, t)
    case Asleep => w.flag.Parked? || Roused(s, t)
    case Waking => !w.flag.Waiting?
    case Returned => !Roused(s, t)
    case _ => false
  }

  lemma MoveKeepsWriters(s: State, t: nat, w: Writer)
    requires Arrived(s) && WritersOk(s) && Moves(s, t, w) && Placed(s, t, w)
    ensures WritersOk(Put(s, t, w))
  {
    var n := Put(s, t, w);
    MoveKeepsArrived(s, t, w);
    forall u | u in n.writers ensures WriterOk(n, u) {
      assert WriterOk(s, u);
      assert Roused(n, u) == Roused(s, u);
    }
  }

  lemma MoveKeepsInv(s: State, t: nat, w: Writer)
    requires Inv(s) && Moves(s, t, w) && Placed(s, t, w)
    ensures Inv(Put(s, t, w))
  {
    MoveKeepsArrived(s, t, w);
    MoveKeepsWriters(s, t, w);
    MoveKeepsQueue(s, t, w);
    MoveKeepsLeader(s, t, w);
    LogFrame(s, Put(s, t, w));
    AnswersFrame(s, Put(s, t, w));
  }

  lemma SpinEndsKeepsInv(s: State, t: nat)
    requires Inv(s) && Enabled(s, SpinEnds(t))
    ensures Inv(Took(s, SpinEnds(t)))
  {
    var w := s.writers[t];
    assert WriterOk(s, t);
    MoveKeepsInv(s, t, w.(pc := if w.flag.Done? then Returned else Rechecking));
  }

  lemma SpuriousKeepsInv(s: State, t: nat)
    requires Inv(s) && Enabled(s, Spurious(t))
    ensures Inv(Took(s, Spurious(t)))
  {
    assert WriterOk(s, t);
    MoveKeepsInv(s, t, s.writers[t].(pc := Waking));
  }

  lemma CallKeepsInv(s: State, t: nat, batch: Option<nat>, sync: bool)
    requires Inv(s) && t !in s.writers
    ensures Inv(Took(s, Call(t, batch, sync)))
  {
    var n := Took(s, Call(t, batch, sync));
    assert t !in s.arrivals;
    assert s.leader != Some(t);
    assert LeadOf(n) == LeadOf(s);
    CallKeepsQueue(s, t, n.writers[t]);
    LogFrame(s, n);
    AnswersFrame(s, n);
    forall u | u in n.writers ensures WriterOk(n, u) {
      assert Roused(n, u) == Roused(s, u);
      if u != t {
        assert WriterOk(s, u);
      }
    }
  }

  lemma CallKeepsQueue(s: State, t: nat, w: Writer)
    requires Arrived(s) && QueueOk(s) && PoppedOk(s) && LeaderOk(s)
    requires t !in s.writers && w.pc.Entering? && s.leader != Some(t)
    ensures Arrived(Put(s, t, w)) && QueueOk(Put(s, t, w)) && PoppedOk(Put(s, t, w)) && LeaderOk(Put(s, t, w))
  {
    var n := Put(s, t, w);
    forall i | n.popped <= i < |n.arrivals| ensures QueuedOk(n, i) {
      assert QueuedOk(s, i);
    }
  }

  // ------------------------------------------------------ coming into the lead

  /** A promoted writer is at the front, and no one leads. */
  lemma PromotedIsFront(s: State, t: nat)
    requires Inv(s) && t in s.writers && s.writers[t].flag.Promoted? && s.mutex.None?
    requires s.writers[t].pc.Rechecking? || s.writers[t].pc.Waking?
    ensures s.leader.None? && s.popped < |s.arrivals| && s.arrivals[s.popped] == t
  {
    assert WriterOk(s, t);
    var i :| 0 <= i < |s.arrivals| && s.arrivals[i] == t;
    assert s.popped <= i;
    assert QueuedOk(s, i);
  }

  /** The front of the queue takes the lead and the mutex. */
  function InLead(s: State, t: nat, w: Writer): State {
    Put(s, t, w.(pc := Leading(Preparing))).(mutex := Some(t), leader := Some(t))
  }

  lemma LeadKeepsWriters(s: State, t: nat, n: State)
    requires WritersOk(s) && s.leader.None? && t in n.writers && n.writers[t].pc == Leading(Preparing)
    requires n.leader == Some(t)
    requires forall u :: u in n.writers ==> u in s.writers && (u != t ==> n.writers[u] == s.writers[u])
    requires n.writers[t].answer.None? && (n.writers[t].flag.Waiting? || n.writers[t].flag.Promoted?)
    ensures WritersOk(n) && LeadOf(n) == Some(Preparing)
  {
    forall u | u in n.writers ensures WriterOk(n, u) {
      assert WriterOk(s, u);
    }
  }

  lemma LeadKeepsInv(s: State, t: nat)
    requires Inv(s) && t in s.writers && s.leader.None? && s.popped < |s.arrivals| && s.arrivals[s.popped] == t
    requires s.writers[t].flag.Promoted? && !s.writers[t].pc.Entering?
    ensures Inv(InLead(s, t, s.writers[t]))
  {
    var n := InLead(s, t, s.writers[t]);
    assert QueuedOk(s, s.popped);
    LeadKeepsWriters(s, t, n);
    forall i | n.popped <= i < |n.arrivals| ensures QueuedOk(n, i) {
      assert QueuedOk(s, i);
    }
    LogFrame(s, n);
    AnswersFrame(s, n);
  }

  /** A writer that looks at its flag with the mutex in hand. */
  lemma LookedKeepsInv(s: State, t: nat)
    requires Inv(s) && t in s.writers && s.mutex.None? && (s.writers[t].pc.Rechecking? || s.writers[t].pc.Waking?)
    ensures Inv(Looked(s, t, s.writers[t]))
  {
    var w := s.writers[t];
    assert WriterOk(s, t);
    NotRoused(s, t);
    match w.flag
    case Promoted =>
      PromotedIsFront(s, t);
      LeadKeepsInv(s, t);
    case Done => MoveKeepsInv(s, t, w.(pc := Returned));
    case _ => MoveKeepsInv(s, t, w.(flag := Parked, pc := Asleep));
  }

  /** Whoever is waking someone holds the mutex. */
  lemma NotRoused(s: State, t: nat)
    requires Inv(s) && s.mutex.None?
    ensures !Roused(s, t)
  {
  }

  // ------------------------------------------------------- joining the queue

  function Joined(s: State, t: nat, w: Writer): State {
    Put(s.(arrivals := s.arrivals + [t]), t, w)
  }

  /** A newcomer's place at the back. */
  ghost predicate Comes(s: State, t: nat, w: Writer) {
    && t in s.writers && s.writers[t].pc.Entering? && s.leader != Some(t)
    && w.batch == s.writers[t].batch && w.sync == s.writers[t].sync && w.answer.None?
    && !w.pc.Entering? && !w.pc.Returned? && !w.flag.Done? && !w.flag.Promoted?
  }

  lemma JoinArrived(s: State, t: nat, w: Writer)
    requires Arrived(s) && Comes(s, t, w)
    ensures Arrived(Joined(s, t, w)) && t !in s.arrivals
  {
    var n := Joined(s, t, w);
    assert forall i :: 0 <= i < |s.arrivals| ==> n.arrivals[i] == s.arrivals[i];
    assert n.arrivals[|s.arrivals|] == t;
    forall u | u in n.writers && !n.writers[u].pc.Entering? ensures u in n.arrivals {
      if u != t {
        assert u in s.arrivals;
      }
    }
  }

  lemma JoinKeepsQueue(s: State, t: nat, w: Writer)
    requires Arrived(s) && QueueOk(s) && Comes(s, t, w) && !w.pc.Leading? && s.popped < |s.arrivals|
    ensures Arrived(Joined(s, t, w)) && QueueOk(Joined(s, t, w)) && LeadOf(Joined(s, t, w)) == LeadOf(s)
  {
    var n := Joined(s, t, w);
    JoinArrived(s, t, w);
    forall i | n.popped <= i < |n.arrivals| ensures QueuedOk(n, i) {
      if i < |s.arrivals| {
        assert QueuedOk(s, i) && n.arrivals[i] == s.arrivals[i];
      }
    }
  }

  lemma JoinKeepsLeader(s: State, t: nat, w: Writer)
    requires Arrived(s) && PoppedOk(s) && LeaderOk(s) && Comes(s, t, w) && !w.pc.Leading?
    ensures Arrived(Joined(s, t, w)) && PoppedOk(Joined(s, t, w)) && LeaderOk(Joined(s, t, w))
  {
    var n := Joined(s, t, w);
    JoinArrived(s, t, w);
    assert forall i :: 0 <= i < |s.arrivals| ==> n.arrivals[i] == s.arrivals[i];
    assert n.arrivals[..s.popped] == s.arrivals[..s.popped];
  }

  lemma JoinKeepsInv(s: State, t: nat, w: Writer)
    requires Inv(s) && Comes(s, t, w) && s.popped < |s.arrivals|
    requires (w.pc.Spinning? && w.flag.Waiting?) || (w.pc.Asleep? && w.flag.Parked?)
    ensures Inv(Joined(s, t, w))
  {
    var n := Joined(s, t, w);
    JoinKeepsQueue(s, t, w);
    JoinKeepsLeader(s, t, w);
    LogFrame(s, n);
    AnswersFrame(s, n);
    assert WriterOk(s, t);
    forall u | u in n.writers ensures WriterOk(n, u) {
      assert WriterOk(s, u);
      assert Roused(n, u) == Roused(s, u);
    }
  }

  /** An empty queue has no leader unless it holds the mutex. */
  lemma EmptyIsFree(s: State)
    requires Inv(s) && s.popped == |s.arrivals| && s.mutex.None?
    ensures s.leader.None?
  {
  }

  lemma JoinFrontKeepsInv(s: State, t: nat)
    requires Inv(s) && t in s.writers && s.writers[t].pc.Entering? && s.popped == |s.arrivals| && s.mutex.None?
    ensures Inv(InLead(s.(arrivals := s.arrivals + [t]), t, s.writers[t]))
  {
    var w := s.writers[t];
    var n := InLead(s.(arrivals := s.arrivals + [t]), t, w);
    EmptyIsFree(s);
    assert WriterOk(s, t);
    JoinArrived(s, t, w.(pc := Leading(Preparing)));
    assert forall i :: 0 <= i < |s.arrivals| ==> n.arrivals[i] == s.arrivals[i];
    LeadKeepsWriters(s, t, n);
    JoinFrontLog(s, t, n);
  }

  lemma JoinFrontLog(s: State, t: nat, n: State)
    requires Arrived(s) && LogOk(s) && AnswersOk(s) && s.leader.None? && t in s.writers && s.writers[t].answer.None?
    requires n == InLead(s.(arrivals := s.arrivals + [t]), t, s.writers[t]) && Arrived(n)
    requires forall i :: 0 <= i < |s.arrivals| ==> n.arrivals[i] == s.arrivals[i]
    ensures LogOk(n) && AnswersOk(n)
  {
    LogFrame(s, n);
    AnswersFrame(s, n);
  }

  lemma EnqueueKeepsInv(s: State, t: nat, spin: bool)
    requires Inv(s) && Enabled(s, Enqueue(t, spin))
    ensures Inv(Took(s, Enqueue(t, spin)))
  {
    var w := s.writers[t];
    assert WriterOk(s, t);
    if s.popped == |s.arrivals| {
      JoinFrontKeepsInv(s, t);
    } else if spin {
      JoinKeepsInv(s, t, w.(pc := Spinning));
    } else {
      JoinKeepsInv(s, t, w.(flag := Parked, pc := Asleep));
    }
  }

  // ---------------------------------------------- the leader before it answers

  /** The leader at another point, holding the mutex or not. */
  function LeadAt(s: State, t: nat, lead: Lead): State
    requires t in s.writers
  {
    Put(s, t, s.writers[t].(pc := Leading(lead))).(mutex := if HoldsMutex(lead) then Some(t) else None)
  }

  lemma LeadAtFacts(s: State, t: nat, lead: Lead)
    requires Arrived(s) && WritersOk(s) && Leads(s, t)
    ensures Arrived(LeadAt(s, t, lead)) && LeadOf(LeadAt(s, t, lead)) == Some(lead) && s.leader == Some(t)
    ensures LeadOf(s) == Some(s.writers[t].pc.lead)
    ensures SameRecords(s, LeadAt(s, t, lead)) && SameAnswers(s, LeadAt(s, t, lead))
  {
    assert WriterOk(s, t);
  }

  /** No one is being woken, before or after. */
  lemma LeadAtKeepsWriters(s: State, t: nat, lead: Lead)
    requires Arrived(s) && WritersOk(s) && Leads(s, t)
    requires forall u :: !Roused(s, u)
    requires !lead.Rousing? && !lead.RousingNext?
    ensures WritersOk(LeadAt(s, t, lead))
  {
    var n := LeadAt(s, t, lead);
    LeadAtFacts(s, t, lead);
    forall u | u in n.writers ensures WriterOk(n, u) {
      assert WriterOk(s, u) && !Roused(s, u) && !Roused(n, u);
    }
  }

  /** From one point before the pop to another. */
  lemma LeadAtKeepsQueue(s: State, t: nat, lead: Lead)
    requires Arrived(s) && WritersOk(s) && QueueOk(s) && PoppedOk(s) && Leads(s, t)
    requires PrePop(s.writers[t].pc.lead) && PrePop(lead)
    ensures Arrived(LeadAt(s, t, lead)) && QueueOk(LeadAt(s, t, lead)) && PoppedOk(LeadAt(s, t, lead))
  {
    var n := LeadAt(s, t, lead);
    LeadAtFacts(s, t, lead);
    forall i | n.popped <= i < |n.arrivals| ensures QueuedOk(n, i) {
      assert QueuedOk(s, i);
    }
  }

  lemma LeadAtKeepsInv(s: State, t: nat, lead: Lead)
    requires Inv(s) && Leads(s, t) && PrePop(s.writers[t].pc.lead) && !s.writers[t].pc.lead.Logged?
    requires PrePop(lead) && !lead.Logged? && (lead.Logging? ==> GroupOk(s, t, lead.n))
    ensures Inv(LeadAt(s, t, lead))
  {
    var n := LeadAt(s, t, lead);
    LeadAtFacts(s, t, lead);
    LeadAtKeepsWriters(s, t, lead);
    LeadAtKeepsQueue(s, t, lead);
    RecordsFrame(s, n);
    forall i: nat ensures Carried(n, i) == Carried(s, i) {
      CarriedSame(s, n, i);
    }
  }

  lemma FormGroupKeepsInv(s: State, t: nat, n: nat)
    requires Inv(s) && Enabled(s, FormGroup(t, n))
    ensures Inv(Took(s, FormGroup(t, n)))
  {
    forall i | s.popped < i < s.popped + n ensures Joins(s, t, s.arrivals[i]) {
      assert s.arrivals[i] == Queue(s)[i - s.popped];
    }
    LeadAtKeepsInv(s, t, Logging(n));
  }

  /** The record for the group at the front of the queue. */
  function Extended(s: State, t: nat, ok: bool): State
    requires Leads(s, t) && s.writers[t].pc.lead.Logging? && s.writers[t].pc.lead.n <= |Queue(s)|
  {
    var w := s.writers[t];
    var n := w.pc.lead.n;
    LeadAt(s, t, Logged(n, ok)).(log := s.log + [Record(s.popped, n, s.last + 1, Counted(s, Queue(s)[..n]), w.sync,
        ok)])
  }

  lemma OrderedExtend(log: seq<Record>, r: Record)
    requires LogOrdered(log) && r.first == NextFirst(log) && EndOfLog(log) <= r.start
    ensures LogOrdered(log + [r])
  {
    var n := log + [r];
    forall k | 0 <= k < |n| ensures n[k].first == NextFirst(n[..k]) && EndOfLog(n[..k]) <= n[k].start {
      if k < |log| {
        assert n[..k] == log[..k];
      } else {
        assert n[..k] == log;
      }
    }
  }

  lemma ExtendKeepsRecords(s: State, t: nat, ok: bool)
    requires Inv(s) && Enabled(s, WriteLog(t, ok))
    ensures Arrived(Extended(s, t, ok)) && LogOk(Extended(s, t, ok))
  {
    var n, m := Extended(s, t, ok), s.writers[t].pc.lead.n;
    LeadAtFacts(s, t, Logged(m, ok));
    OrderedExtend(s.log, n.log[|s.log|]);
    RecordsFrame(s, LeadAt(s, t, Logged(m, ok)));
    NewRecordOk(s, t, m);
    forall k | 0 <= k < |n.log| ensures RecordOk(n, n.log[k]) {
      if k < |s.log| {
        assert RecordOk(LeadAt(s, t, Logged(m, ok)), s.log[k]);
      }
    }
  }

  lemma NewRecordOk(s: State, t: nat, m: nat)
    requires Arrived(s) && Leads(s, t) && s.popped < |s.arrivals| && s.arrivals[s.popped] == t && GroupOk(s, t, m)
    ensures forall i :: s.popped <= i < s.popped + m ==>
              s.writers[s.arrivals[i]].batch.Some? && (s.writers[s.arrivals[i]].sync ==> s.writers[t].sync)
  {
    forall i | s.popped <= i < s.popped + m
      ensures s.writers[s.arrivals[i]].batch.Some? && (s.writers[s.arrivals[i]].sync ==> s.writers[t].sync) {
      if i != s.popped {
        assert Joins(s, t, s.arrivals[i]);
      }
    }
  }

  /** A record for those from r.start on says nothing of the ones before. */
  lemma CarriedBefore(s: State, n: State, r: Record, i: nat)
    requires n.log == s.log + [r] && i < r.start
    ensures Carried(n, i) == Carried(s, i)
  {
    if Carried(s, i) {
      var k: nat :| Carries(s, k, i) && s.log[k].ok;
      assert Carries(n, k, i) && n.log[k].ok;
    }
    if Carried(n, i) {
      var k: nat :| Carries(n, k, i) && n.log[k].ok;
      assert Carries(s, k, i) && s.log[k].ok;
    }
  }

  lemma {:induction false} EndsGrow(log: seq<Record>, k: nat)
    requires LogOrdered(log) && k < |log|
    ensures log[k].start + log[k].n <= EndOfLog(log)
    decreases |log|
  {
    var m := |log| - 1;
    if k < m {
      var rest := log[..m];
      assert forall j :: 0 <= j < m ==> rest[j] == log[j] && rest[..j] == log[..j];
      EndsGrow(rest, k);
      assert EndOfLog(rest) <= log[m].start;
    }
  }

  /** No record reaches past the end of the log. */
  lemma NotCarriedBeyond(s: State, i: nat)
    requires LogOrdered(s.log) && EndOfLog(s.log) <= i
    ensures !Carried(s, i)
  {
    forall k: nat | Carries(s, k, i) ensures false {
      EndsGrow(s.log, k);
    }
  }

  /** A member of the last record is in no other. */
  lemma CarriedByLast(s: State, i: nat)
    requires LogOrdered(s.log) && s.log != [] && Carries(s, |s.log| - 1, i)
    ensures Carried(s, i) <==> s.log[|s.log| - 1].ok
  {
    var m := |s.log| - 1;
    forall k: nat | Carries(s, k, i) ensures k == m {
      if k < m {
        var rest := s.log[..m];
        assert forall j :: 0 <= j < m ==> rest[j] == s.log[j] && rest[..j] == s.log[..j];
        EndsGrow(rest, k);
      }
    }
  }

  /** What is said of the writers and the queue says nothing of the log. */
  lemma IgnoresLog(m: State, n: State)
    requires n == m.(log := n.log, last := n.last, error := n.error)
    requires Arrived(m) && WritersOk(m) && QueueOk(m) && PoppedOk(m) && LeaderOk(m)
    ensures Arrived(n) && WritersOk(n) && QueueOk(n) && PoppedOk(n) && LeaderOk(n) && LeadOf(n) == LeadOf(m)
  {
    forall u | u in n.writers ensures WriterOk(n, u) {
      assert WriterOk(m, u) && Roused(n, u) == Roused(m, u);
    }
    forall i | n.popped <= i < |n.arrivals| ensures QueuedOk(n, i) {
      assert QueuedOk(m, i);
    }
  }

  lemma LoggedLeads(s: State, t: nat, ok: bool)
    requires Inv(s) && Enabled(s, WriteLog(t, ok))
    ensures var m := LeadAt(s, t, Logged(s.writers[t].pc.lead.n, ok));
            Arrived(m) && WritersOk(m) && QueueOk(m) && PoppedOk(m) && LeaderOk(m)
  {
    var lead := Logged(s.writers[t].pc.lead.n, ok);
    LeadAtFacts(s, t, lead);
    LeadAtKeepsWriters(s, t, lead);
    LeadAtKeepsQueue(s, t, lead);
  }

  lemma WriteLogKeepsInv(s: State, t: nat, ok: bool)
    requires Inv(s) && Enabled(s, WriteLog(t, ok))
    ensures Inv(Took(s, WriteLog(t, ok)))
  {
    var n, lead := Extended(s, t, ok), Logged(s.writers[t].pc.lead.n, ok);
    LoggedLeads(s, t, ok);
    IgnoresLog(LeadAt(s, t, lead), n);
    ExtendKeepsRecords(s, t, ok);
    LeadAtFacts(s, t, lead);
    ExtendKeepsAnswers(s, n, n.log[|s.log|]);
  }

  /** Whoever has been told left the queue before the new record's writers. */
  lemma ExtendKeepsAnswers(s: State, n: State, r: Record)
    requires Arrived(s) && Arrived(n) && QueueOk(s) && AnswersOk(s) && n.arrivals == s.arrivals
    requires n.log == s.log + [r] && r.start == s.popped && LeadOf(n).Some? && PrePop(LeadOf(n).value)
    requires forall i :: 0 <= i < |s.arrivals| ==> n.writers[s.arrivals[i]].answer == s.writers[s.arrivals[i]].answer
    requires forall i :: 0 <= i < |s.arrivals| ==> n.writers[s.arrivals[i]].batch == s.writers[s.arrivals[i]].batch
    ensures AnswersOk(n)
  {
    forall i | 0 <= i < |n.arrivals| ensures Told(n.writers[n.arrivals[i]], Carried(n, i)) {
      assert Told(s.writers[s.arrivals[i]], Carried(s, i));
      if i < s.popped {
        CarriedBefore(s, n, r, i);
      } else {
        assert QueuedOk(s, i);
      }
    }
  }

  // ---------------------------------------------- the leader leaves the queue

  function PoppedAt(s: State, t: nat, lead: Lead): State
    requires t in s.writers
  {
    LeadAt(s, t, lead).(popped := s.popped + 1)
  }

  lemma PopKeepsQueue(s: State, t: nat, lead: Lead)
    requires Arrived(s) && WritersOk(s) && QueueOk(s) && PoppedOk(s) && LeaderOk(s) && Leads(s, t)
    requires PrePop(s.writers[t].pc.lead) && lead.Answering?
    ensures Arrived(PoppedAt(s, t, lead)) && QueueOk(PoppedAt(s, t, lead)) && PoppedOk(PoppedAt(s, t, lead))
  {
    var n := PoppedAt(s, t, lead);
    LeadAtFacts(s, t, lead);
    assert LeadOf(n) == Some(lead);
    forall i | n.popped <= i < |n.arrivals| ensures QueuedOk(n, i) {
      assert QueuedOk(s, i);
    }
  }

  lemma PopKeepsWriters(s: State, t: nat, lead: Lead)
    requires Arrived(s) && WritersOk(s) && Leads(s, t) && (forall u :: !Roused(s, u)) && lead.Answering?
    ensures WritersOk(PoppedAt(s, t, lead))
  {
    var m, n := LeadAt(s, t, lead), PoppedAt(s, t, lead);
    LeadAtKeepsWriters(s, t, lead);
    LeadAtFacts(s, t, lead);
    forall u | u in n.writers ensures WriterOk(n, u) {
      assert WriterOk(m, u) && Roused(n, u) == Roused(m, u);
    }
  }

  lemma PopKeepsLeader(s: State, t: nat, lead: Lead)
    requires Arrived(s) && WritersOk(s) && LeaderOk(s) && Leads(s, t) && PrePop(s.writers[t].pc.lead)
    requires lead.Answering? && s.popped + 1 + lead.n <= |s.arrivals|
    ensures Arrived(PoppedAt(s, t, lead)) && LeaderOk(PoppedAt(s, t, lead))
  {
    var n := PoppedAt(s, t, lead);
    LeadAtFacts(s, t, lead);
    assert LeadOf(n) == Some(lead);
    assert n.arrivals[..n.popped][s.popped] == t;
  }

  lemma PopKeeps(s: State, t: nat, lead: Lead)
    requires Inv(s) && Leads(s, t) && PrePop(s.writers[t].pc.lead)
    requires lead.Answering? && s.popped + 1 + lead.n <= |s.arrivals|
    ensures var n := PoppedAt(s, t, lead);
            && Arrived(n) && WritersOk(n) && QueueOk(n) && PoppedOk(n) && LeaderOk(n) && LeadOf(n) == Some(lead)
            && SameRecords(s, n) && SameAnswers(s, n) && n.leader == s.leader == Some(t)
  {
    LeadAtFacts(s, t, lead);
    PopKeepsQueue(s, t, lead);
    PopKeepsWriters(s, t, lead);
    PopKeepsLeader(s, t, lead);
  }

  /** Left alone, the leader pops itself: nothing was logged. */
  lemma AloneLog(s: State, n: State)
    requires Arrived(s) && Arrived(n) && SameRecords(s, n) && LogOk(s) && n.popped == s.popped + 1
    requires LeadOf(s) == Some(Preparing) && LeadOf(n).Some? && LeadOf(n).value.Answering? && LeadOf(n).value.n == 0
    ensures LogOk(n)
  {
    RecordsFrame(s, n);
  }

  lemma AloneAnswers(s: State, n: State, t: nat)
    requires Arrived(s) && Arrived(n) && SameRecords(s, n) && SameAnswers(s, n) && n.arrivals == s.arrivals
    requires AnswersOk(s) && LogOrdered(s.log) && EndOfLog(s.log) <= s.popped && n.popped == s.popped + 1
    requires LeadOf(n).Some? && LeadOf(n).value.Answering? && LeadOf(n).value.n == 0 && n.leader == Some(t)
    requires s.popped < |s.arrivals| && s.arrivals[s.popped] == t
    requires t in n.writers && (LeadOf(n).value.ok ==> n.writers[t].batch.None?)
    ensures AnswersOk(n)
  {
    NotCarriedBeyond(s, s.popped);
    forall i: nat ensures Carried(n, i) == Carried(s, i) {
      CarriedSame(s, n, i);
    }
  }

  lemma AnswerAloneKeepsInv(s: State, t: nat, ok: bool)
    requires Inv(s) && Enabled(s, AnswerAlone(t, ok))
    ensures Inv(Took(s, AnswerAlone(t, ok)))
  {
    var n := PoppedAt(s, t, Answering(0, ok));
    LeaderFacts(s, t);
    PopKeeps(s, t, Answering(0, ok));
    AloneLog(s, n);
    AloneAnswers(s, n, t);
  }

  lemma RelockKeepsLog(s: State, m: State, n: State)
    requires Arrived(s) && LogOk(s) && LeadOf(s).Some? && LeadOf(s).value.Logged? && LeadOf(s).value.n > 0
    requires Arrived(m) && SameRecords(s, m) && m.popped == s.popped + 1
    requires n == m.(last := s.last + s.log[|s.log| - 1].count, error := n.error)
    requires LeadOf(n) == Some(Answering(LeadOf(s).value.n - 1, LeadOf(s).value.ok))
    ensures LogOk(n)
  {
    RecordsFrame(s, m);
    forall k | 0 <= k < |n.log| ensures RecordOk(n, n.log[k]) {
      assert RecordOk(m, m.log[k]);
    }
  }

  lemma RelockKeepsAnswers(s: State, n: State)
    requires Arrived(s) && LogOk(s) && AnswersOk(s) && LeadOf(s).Some? && LeadOf(s).value.Logged?
    requires LeadOf(s).value.n > 0
    requires Arrived(n) && n.log == s.log && n.arrivals == s.arrivals && n.popped == s.popped + 1
    requires forall i :: 0 <= i < |s.arrivals| ==> n.writers[s.arrivals[i]].answer == s.writers[s.arrivals[i]].answer
    requires forall i :: 0 <= i < |s.arrivals| ==> n.writers[s.arrivals[i]].batch == s.writers[s.arrivals[i]].batch
    requires LeadOf(n) == Some(Answering(LeadOf(s).value.n - 1, LeadOf(s).value.ok))
    requires s.popped < |s.arrivals| && n.leader == Some(s.arrivals[s.popped])
    ensures AnswersOk(n)
  {
    var last := |s.log| - 1;
    forall i | s.popped <= i < s.popped + s.log[last].n ensures Carried(n, i) <==> s.log[last].ok {
      assert Carries(n, last, i);
      CarriedByLast(n, i);
    }
    forall i: nat ensures Carried(n, i) == Carried(s, i) {
      CarriedSame(s, n, i);
    }
  }

  lemma LeaderFacts(s: State, t: nat)
    requires Inv(s) && Leads(s, t)
    ensures s.leader == Some(t) && LeadOf(s) == Some(s.writers[t].pc.lead) && LeadingOk(s, t, s.writers[t].pc.lead)
  {
    assert WriterOk(s, t);
  }

  function Relocked(s: State, t: nat): State
    requires Leads(s, t) && s.writers[t].pc.lead.Logged? && s.writers[t].pc.lead.n > 0 && s.log != []
  {
    var was := s.writers[t].pc.lead;
    PoppedAt(s, t, Answering(was.n - 1, was.ok)).(last := s.last + s.log[|s.log| - 1].count, error := s.error ||
        !was.ok)
  }

  lemma RelockedKeepsInv(s: State, t: nat)
    requires Inv(s) && Leads(s, t) && s.writers[t].pc.lead.Logged? && s.writers[t].pc.lead.n > 0 && s.log != []
    ensures Inv(Relocked(s, t))
  {
    var was := s.writers[t].pc.lead;
    var m, n := PoppedAt(s, t, Answering(was.n - 1, was.ok)), Relocked(s, t);
    LeaderFacts(s, t);
    PopKeeps(s, t, Answering(was.n - 1, was.ok));
    IgnoresLog(m, n);
    RelockKeepsLog(s, m, n);
    RelockKeepsAnswers(s, n);
  }

  lemma RelockKeepsInv(s: State, t: nat)
    requires Inv(s) && Enabled(s, Relock(t))
    ensures Inv(Took(s, Relock(t)))
  {
    LeaderFacts(s, t);
    RelockedKeepsInv(s, t);
    assert Took(s, Relock(t)) == Relocked(s, t);
  }

  // --------------------------------------------------------------- the answers

  /** The leader exchanges r's flag and goes on. */
  function Flagged(s: State, t: nat, r: nat, w: Writer, lead: Lead): State
    requires t in s.writers
  {
    Put(Put(s, r, w), t, s.writers[t].(pc := Leading(lead)))
  }

  /** The exchange: r keeps its place, and is woken if it was parked. */
  ghost predicate Exchanges(s: State, t: nat, r: nat, w: Writer, lead: Lead) {
    && Leads(s, t) && s.leader == Some(t) && s.writers[t].pc.lead.Answering? && r in s.writers && r != t
    && w.pc == s.writers[r].pc && w.batch == s.writers[r].batch && w.sync == s.writers[r].sync
    && (w.flag.Done? || w.flag.Promoted?) && (w.flag.Done? <==> w.answer.Some?)
    && (if s.writers[r].flag.Parked? then (lead.Rousing? || lead.RousingNext?) && lead.w == r
        else !lead.Rousing? && !lead.RousingNext?)
  }

  lemma FlaggedArrived(s: State, t: nat, r: nat, w: Writer, lead: Lead)
    requires Arrived(s) && Exchanges(s, t, r, w, lead)
    ensures Arrived(Flagged(s, t, r, w, lead)) && LeadOf(Flagged(s, t, r, w, lead)) == Some(lead)
  {
  }

  lemma FlaggedKeepsWriters(s: State, t: nat, r: nat, w: Writer, lead: Lead)
    requires Arrived(s) && WritersOk(s) && Exchanges(s, t, r, w, lead)
    requires s.writers[r].answer.None? && !s.writers[r].pc.Returned? && !s.writers[r].pc.Entering?
    requires s.writers[r].flag.Parked? || s.writers[r].flag.Waiting?
    ensures WritersOk(Flagged(s, t, r, w, lead))
  {
    var n := Flagged(s, t, r, w, lead);
    FlaggedArrived(s, t, r, w, lead);
    assert LeadOf(s) == Some(s.writers[t].pc.lead);
    forall u | u in n.writers ensures WriterOk(n, u) {
      assert WriterOk(s, u) && !Roused(s, u);
      assert Roused(n, u) <==> (s.writers[r].flag.Parked? && u == r);
    }
  }

  function Answered(s: State, t: nat): State
    requires Leads(s, t) && s.writers[t].pc.lead.Answering? && s.writers[t].pc.lead.n > 0
    requires s.popped < |s.arrivals| && s.arrivals[s.popped] in s.writers
  {
    var r, was := s.arrivals[s.popped], s.writers[t].pc.lead;
    var lead := if s.writers[r].flag.Parked? then Rousing(r, was.n - 1, was.ok) else Answering(was.n - 1, was.ok);
    Flagged(s, t, r, s.writers[r].(flag := Done, answer := Some(was.ok)), lead).(popped := s.popped + 1)
  }

  /** The member at the front is alive, waiting, and not the leader. */
  lemma FrontMember(s: State, t: nat)
    requires Inv(s) && Leads(s, t) && s.writers[t].pc.lead.Answering? && s.popped < |s.arrivals|
    ensures var r := s.arrivals[s.popped];
            && r in s.writers && r != t && s.writers[r].answer.None? && !s.writers[r].pc.Returned? &&
                !s.writers[r].pc.Entering?
            && (s.writers[r].flag.Parked? || s.writers[r].flag.Waiting?)
  {
    LeaderFacts(s, t);
    assert QueuedOk(s, s.popped);
  }

  lemma PoppedWriters(m: State, popped: nat)
    requires WritersOk(m)
    ensures WritersOk(m.(popped := popped))
  {
    var n := m.(popped := popped);
    forall u | u in n.writers ensures WriterOk(n, u) {
      assert WriterOk(m, u) && Roused(n, u) == Roused(m, u);
    }
  }

  /** A leader with someone to answer at the front of the queue. */
  ghost predicate CanAnswer(s: State, t: nat) {
    && Leads(s, t) && s.leader == Some(t) && LeadOf(s) == Some(s.writers[t].pc.lead) && s.writers[t].pc.lead.Answering?
    && s.popped < |s.arrivals| && s.arrivals[s.popped] in s.writers && s.arrivals[s.popped] != t
    && var r := s.writers[s.arrivals[s.popped]];
       r.answer.None? && !r.pc.Returned? && !r.pc.Entering? && (r.flag.Parked? || r.flag.Waiting?)
  }

  lemma AnsweredWriters(s: State, t: nat)
    requires Arrived(s) && WritersOk(s) && CanAnswer(s, t) && s.writers[t].pc.lead.n > 0
    ensures Arrived(Answered(s, t)) && WritersOk(Answered(s, t))
  {
    var r, was := s.arrivals[s.popped], s.writers[t].pc.lead;
    var lead := if s.writers[r].flag.Parked? then Rousing(r, was.n - 1, was.ok) else Answering(was.n - 1, was.ok);
    var w := s.writers[r].(flag := Done, answer := Some(was.ok));
    FlaggedArrived(s, t, r, w, lead);
    FlaggedKeepsWriters(s, t, r, w, lead);
    PoppedWriters(Flagged(s, t, r, w, lead), s.popped + 1);
  }

  lemma AnsweredQueue(s: State, t: nat)
    requires Arrived(s) && QueueOk(s) && PoppedOk(s) && CanAnswer(s, t) && s.writers[t].pc.lead.n > 0
    requires Arrived(Answered(s, t))
    ensures QueueOk(Answered(s, t)) && PoppedOk(Answered(s, t))
  {
    var n := Answered(s, t);
    assert LeadOf(n).Some? && Left(LeadOf(n).value) == s.writers[t].pc.lead.n - 1;
    forall i | n.popped <= i < |n.arrivals| ensures QueuedOk(n, i) {
      assert QueuedOk(s, i) && s.arrivals[i] != s.arrivals[s.popped];
    }
  }

  lemma AnsweredLeader(s: State, t: nat)
    requires Arrived(s) && LeaderOk(s) && CanAnswer(s, t) && s.writers[t].pc.lead.n > 0 && Arrived(Answered(s, t))
    ensures LeaderOk(Answered(s, t))
  {
    var n := Answered(s, t);
    assert LeadOf(n).Some? && Left(LeadOf(n).value) == s.writers[t].pc.lead.n - 1;
    assert t in s.arrivals[..s.popped] && n.arrivals[..n.popped] == s.arrivals[..s.popped] + [s.arrivals[s.popped]];
  }

  /** The leader went on from Answering, with as many or one fewer left. */
  ghost predicate WentOn(s: State, n: State)
    requires Arrived(s) && Arrived(n)
  {
    && n.arrivals == s.arrivals && n.leader == s.leader && SameRecords(s, n)
    && LeadOf(s).Some? && LeadOf(n).Some? && !PrePop(LeadOf(s).value) && !PrePop(LeadOf(n).value)
    && s.popped <= n.popped && n.popped + Left(LeadOf(n).value) == s.popped + Left(LeadOf(s).value)
    && OkOf(LeadOf(n).value) == OkOf(LeadOf(s).value)
  }

  lemma WentOnLog(s: State, n: State)
    requires Arrived(s) && Arrived(n) && WentOn(s, n) && LogOk(s)
    ensures LogOk(n)
  {
    RecordsFrame(s, n);
  }

  lemma WentOnAnswers(s: State, n: State)
    requires Arrived(s) && Arrived(n) && WentOn(s, n) && AnswersOk(s)
    requires forall i :: 0 <= i < |s.arrivals| ==>
               || n.writers[s.arrivals[i]].answer == s.writers[s.arrivals[i]].answer
               || (s.popped <= i < n.popped && n.writers[s.arrivals[i]].answer == Some(OkOf(LeadOf(s).value)))
    requires forall i :: s.popped <= i < n.popped ==> s.leader != Some(s.arrivals[i])
    ensures AnswersOk(n)
  {
    forall i: nat ensures Carried(n, i) == Carried(s, i) {
      CarriedSame(s, n, i);
    }
  }

  lemma AnsweredIs(s: State, t: nat)
    requires s.popped <= |s.arrivals| && Enabled(s, Answer(t))
    ensures s.popped < |s.arrivals| && s.arrivals[s.popped] in s.writers && Took(s, Answer(t)) == Answered(s, t)
  {
    assert Queue(s)[0] == s.arrivals[s.popped];
  }

  lemma AnsweredWentOn(s: State, t: nat)
    requires Arrived(s) && CanAnswer(s, t) && s.writers[t].pc.lead.n > 0 && Arrived(Answered(s, t))
    ensures WentOn(s, Answered(s, t))
  {
  }

  lemma AnsweredAnswers(s: State, t: nat)
    requires Arrived(s) && AnswersOk(s) && CanAnswer(s, t) && s.writers[t].pc.lead.n > 0
    requires Arrived(Answered(s, t)) && WentOn(s, Answered(s, t))
    ensures AnswersOk(Answered(s, t))
  {
    WentOnAnswers(s, Answered(s, t));
  }

  lemma CanAnswerFront(s: State, t: nat)
    requires Inv(s) && Leads(s, t) && s.writers[t].pc.lead.Answering? && s.popped < |s.arrivals|
    ensures CanAnswer(s, t)
  {
    FrontMember(s, t);
    LeaderFacts(s, t);
  }

  lemma AnswerKeepsInv(s: State, t: nat)
    requires Inv(s) && Enabled(s, Answer(t))
    ensures Inv(Took(s, Answer(t)))
  {
    AnsweredIs(s, t);
    CanAnswerFront(s, t);
    AnsweredWriters(s, t);
    AnsweredQueue(s, t);
    AnsweredLeader(s, t);
    AnsweredWentOn(s, t);
    WentOnLog(s, Answered(s, t));
    AnsweredAnswers(s, t);
  }

  // ------------------------------------------------- waking, handing over, leaving

  function RousedAt(s: State, t: nat): State
    requires Leads(s, t) && (s.writers[t].pc.lead.Rousing? || s.writers[t].pc.lead.RousingNext?)
    requires s.writers[t].pc.lead.w in s.writers
  {
    var lead := s.writers[t].pc.lead;
    var woken := if s.writers[lead.w].pc.Asleep? then Put(s, lead.w, s.writers[lead.w].(pc := Waking)) else s;
    Put(woken, t, s.writers[t].(pc := Leading(if lead.Rousing? then Answering(lead.n, lead.ok) else Leaving(lead.ok))))
  }

  /** Whoever is being woken is still waiting to be. */
  lemma RousedOne(s: State, t: nat)
    requires Inv(s) && Leads(s, t) && (s.writers[t].pc.lead.Rousing? || s.writers[t].pc.lead.RousingNext?)
    ensures var w := s.writers[t].pc.lead.w;
            && w in s.writers && w != t && (s.writers[w].pc.Asleep? || s.writers[w].pc.Waking?)
            && (s.writers[w].flag.Done? || s.writers[w].flag.Promoted?)
  {
    LeaderFacts(s, t);
    var w := s.writers[t].pc.lead.w;
    assert WriterOk(s, w) && Roused(s, w);
  }

  lemma RousedAtFrame(s: State, t: nat)
    requires Arrived(s) && Leads(s, t) && (s.writers[t].pc.lead.Rousing? || s.writers[t].pc.lead.RousingNext?)
    requires s.writers[t].pc.lead.w in s.writers && s.writers[t].pc.lead.w != t && s.leader == Some(t)
    ensures Arrived(RousedAt(s, t)) && SameRecords(s, RousedAt(s, t)) && SameAnswers(s, RousedAt(s, t))
  {
    assert RousedAt(s, t).arrivals == s.arrivals;
  }

  lemma RousedAtWentOn(s: State, t: nat)
    requires Arrived(s) && Leads(s, t) && (s.writers[t].pc.lead.Rousing? || s.writers[t].pc.lead.RousingNext?)
    requires s.writers[t].pc.lead.w in s.writers && s.writers[t].pc.lead.w != t && s.leader == Some(t)
    requires Arrived(RousedAt(s, t)) && SameRecords(s, RousedAt(s, t))
    ensures WentOn(s, RousedAt(s, t)) && RousedAt(s, t).popped == s.popped
  {
  }

  lemma RousedAtFacts(s: State, t: nat)
    requires Inv(s) && Leads(s, t) && (s.writers[t].pc.lead.Rousing? || s.writers[t].pc.lead.RousingNext?)
    ensures var lead := s.writers[t].pc.lead;
            && lead.w in s.writers && lead.w != t && (s.writers[lead.w].pc.Asleep? || s.writers[lead.w].pc.Waking?)
            && (s.writers[lead.w].flag.Done? || s.writers[lead.w].flag.Promoted?)
            && Arrived(RousedAt(s, t)) && WentOn(s, RousedAt(s, t)) && RousedAt(s, t).popped == s.popped
            && SameAnswers(s, RousedAt(s, t))
  {
    LeaderFacts(s, t);
    RousedOne(s, t);
    RousedAtFrame(s, t);
    RousedAtWentOn(s, t);
  }

  lemma RouseKeepsWriters(s: State, t: nat)
    requires Inv(s) && Leads(s, t) && (s.writers[t].pc.lead.Rousing? || s.writers[t].pc.lead.RousingNext?)
    requires s.writers[t].pc.lead.w in s.writers
    ensures WritersOk(RousedAt(s, t))
  {
    var n := RousedAt(s, t);
    RousedAtFacts(s, t);
    LeaderFacts(s, t);
    forall u | u in n.writers ensures WriterOk(n, u) {
      assert WriterOk(s, u) && !Roused(n, u);
      assert Roused(s, u) <==> u == s.writers[t].pc.lead.w;
    }
  }

  lemma RouseKeepsQueue(s: State, t: nat)
    requires Inv(s) && Leads(s, t) && (s.writers[t].pc.lead.Rousing? || s.writers[t].pc.lead.RousingNext?)
    requires s.writers[t].pc.lead.w in s.writers && Arrived(RousedAt(s, t))
    ensures QueueOk(RousedAt(s, t)) && PoppedOk(RousedAt(s, t)) && LeaderOk(RousedAt(s, t))
  {
    var n := RousedAt(s, t);
    RousedAtFacts(s, t);
    LeaderFacts(s, t);
    forall i | n.popped <= i < |n.arrivals| ensures QueuedOk(n, i) {
      assert QueuedOk(s, i);
    }
  }

  lemma RouseKeepsInv(s: State, t: nat)
    requires Inv(s) && Enabled(s, Rouse(t))
    ensures Inv(Took(s, Rouse(t)))
  {
    RousedAtFacts(s, t);
    RouseKeepsWriters(s, t);
    RouseKeepsQueue(s, t);
    WentOnLog(s, RousedAt(s, t));
    WentOnAnswers(s, RousedAt(s, t));
    assert Took(s, Rouse(t)) == RousedAt(s, t);
  }

  function HandedAt(s: State, t: nat): State
    requires Leads(s, t) && s.writers[t].pc.lead.Answering? && s.popped < |s.arrivals|
    requires s.arrivals[s.popped] in s.writers
  {
    var r, ok := s.arrivals[s.popped], s.writers[t].pc.lead.ok;
    Flagged(s, t, r, s.writers[r].(flag := Promoted), if s.writers[r].flag.Parked? then RousingNext(r, ok)
        else Leaving(ok))
  }

  lemma HandedWriters(s: State, t: nat)
    requires Arrived(s) && WritersOk(s) && CanAnswer(s, t)
    ensures Arrived(HandedAt(s, t)) && WritersOk(HandedAt(s, t))
  {
    var r, ok := s.arrivals[s.popped], s.writers[t].pc.lead.ok;
    var lead := if s.writers[r].flag.Parked? then RousingNext(r, ok) else Leaving(ok);
    FlaggedArrived(s, t, r, s.writers[r].(flag := Promoted), lead);
    FlaggedKeepsWriters(s, t, r, s.writers[r].(flag := Promoted), lead);
  }

  lemma HandedQueue(s: State, t: nat)
    requires Arrived(s) && QueueOk(s) && PoppedOk(s) && LeaderOk(s) && CanAnswer(s, t) && Arrived(HandedAt(s, t))
    ensures QueueOk(HandedAt(s, t)) && PoppedOk(HandedAt(s, t)) && LeaderOk(HandedAt(s, t))
  {
    var n := HandedAt(s, t);
    assert LeadOf(n).Some? && Handed(LeadOf(n).value);
    forall i | n.popped <= i < |n.arrivals| ensures QueuedOk(n, i) {
      assert QueuedOk(s, i);
      assert i != s.popped ==> s.arrivals[i] != s.arrivals[s.popped];
    }
  }

  lemma HandedWentOn(s: State, t: nat)
    requires Arrived(s) && CanAnswer(s, t) && s.writers[t].pc.lead.n == 0 && Arrived(HandedAt(s, t))
    ensures WentOn(s, HandedAt(s, t)) && SameAnswers(s, HandedAt(s, t))
  {
  }

  lemma HandKeepsInv(s: State, t: nat)
    requires Inv(s) && Leads(s, t) && s.writers[t].pc.lead.Answering? && s.writers[t].pc.lead.n == 0
    requires s.popped < |s.arrivals|
    ensures s.arrivals[s.popped] in s.writers && Inv(HandedAt(s, t))
  {
    CanAnswerFront(s, t);
    HandedWriters(s, t);
    HandedQueue(s, t);
    HandedWentOn(s, t);
    WentOnLog(s, HandedAt(s, t));
    WentOnAnswers(s, HandedAt(s, t));
  }

  lemma LeaveKeepsInv(s: State, t: nat, ok: bool)
    requires Inv(s) && Leads(s, t) && s.writers[t].pc.lead == Answering(0, ok) && s.popped == |s.arrivals|
    ensures Inv(LeadAt(s, t, Leaving(ok)))
  {
    var n := LeadAt(s, t, Leaving(ok));
    LeadAtFacts(s, t, Leaving(ok));
    LeadAtKeepsWriters(s, t, Leaving(ok));
    LeaderFacts(s, t);
    WentOnLog(s, n);
    WentOnAnswers(s, n);
  }

  lemma HandOverKeepsInv(s: State, t: nat)
    requires Inv(s) && Enabled(s, HandOver(t))
    ensures Inv(Took(s, HandOver(t)))
  {
    LeaderFacts(s, t);
    if s.popped == |s.arrivals| {
      LeaveKeepsInv(s, t, s.writers[t].pc.lead.ok);
      assert Took(s, HandOver(t)) == LeadAt(s, t, Leaving(s.writers[t].pc.lead.ok));
    } else {
      assert Queue(s)[0] == s.arrivals[s.popped];
      HandKeepsInv(s, t);
      assert Took(s, HandOver(t)) == HandedAt(s, t);
    }
  }

  function Departed(s: State, t: nat): State
    requires Leads(s, t) && s.writers[t].pc.lead.Leaving?
  {
    Put(s, t, s.writers[t].(pc := Returned, answer := Some(s.writers[t].pc.lead.ok))).(mutex := None, leader := None)
  }

  lemma ReturnKeepsWriters(s: State, t: nat)
    requires Inv(s) && Leads(s, t) && s.writers[t].pc.lead.Leaving?
    ensures Arrived(Departed(s, t)) && WritersOk(Departed(s, t)) && LeadOf(Departed(s, t)) == None
  {
    var n := Departed(s, t);
    LeaderFacts(s, t);
    forall u | u in n.writers ensures WriterOk(n, u) {
      assert WriterOk(s, u) && !Roused(s, u) && !Roused(n, u);
    }
  }

  lemma ReturnKeepsQueue(s: State, t: nat)
    requires Inv(s) && Leads(s, t) && s.writers[t].pc.lead.Leaving? && Arrived(Departed(s, t))
    requires LeadOf(Departed(s, t)) == None
    ensures QueueOk(Departed(s, t)) && PoppedOk(Departed(s, t)) && LeaderOk(Departed(s, t))
  {
    var n := Departed(s, t);
    LeaderFacts(s, t);
    forall i | n.popped <= i < |n.arrivals| ensures QueuedOk(n, i) {
      assert QueuedOk(s, i);
    }
  }

  lemma ReturnKeepsLog(s: State, t: nat)
    requires Inv(s) && Leads(s, t) && s.writers[t].pc.lead.Leaving? && Arrived(Departed(s, t))
    requires LeadOf(Departed(s, t)) == None
    ensures LogOk(Departed(s, t)) && AnswersOk(Departed(s, t))
  {
    var n := Departed(s, t);
    LeaderFacts(s, t);
    RecordsFrame(s, n);
    forall i: nat ensures Carried(n, i) == Carried(s, i) {
      CarriedSame(s, n, i);
    }
    forall i | 0 <= i < |n.arrivals| ensures Told(n.writers[n.arrivals[i]], Carried(n, i)) {
      assert Told(s.writers[s.arrivals[i]], Carried(s, i));
      if n.arrivals[i] == t {
        var j :| 0 <= j < s.popped && s.arrivals[..s.popped][j] == t;
        assert s.arrivals[j] == t && i == j;
      }
    }
  }

  lemma ReturnKeepsInv(s: State, t: nat)
    requires Inv(s) && Enabled(s, Return(t))
    ensures Inv(Took(s, Return(t)))
  {
    ReturnKeepsWriters(s, t);
    ReturnKeepsQueue(s, t);
    ReturnKeepsLog(s, t);
  }
}
