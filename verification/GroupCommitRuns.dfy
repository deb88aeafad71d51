/** Group commit over every interleaving. */
module GroupCommitRuns {
  import opened Entries
  import opened GroupCommit
  import opened GroupCommitInv
  import opened GroupCommitProofs

  ghost function Quiet(): State {
    State(map[], [], 0, None, None, [], 0, false)
  }

  /** The steps of one that does not lead. */
  ghost predicate OfWaiter(step: Step) {
    step.Call? || step.Enqueue? || step.SpinEnds? || step.Recheck? || step.Spurious? || step.WakeUp?
  }

  lemma WaiterKeepsInv(s: State, step: Step)
    requires Inv(s) && Enabled(s, step)
    requires OfWaiter(step)
    ensures Inv(Took(s, step))
  {
    match step
    case Call(t, batch, sync) => CallKeepsInv(s, t, batch, sync);
    case Enqueue(t, spin) => EnqueueKeepsInv(s, t, spin);
    case SpinEnds(t) => SpinEndsKeepsInv(s, t);
    case Recheck(t) => LookedKeepsInv(s, t);
    case Spurious(t) => SpuriousKeepsInv(s, t);
    case WakeUp(t) => LookedKeepsInv(s, t);
  }

  lemma LeaderKeepsInv(s: State, step: Step)
    requires Inv(s) && Enabled(s, step)
    requires !OfWaiter(step)
    ensures Inv(Took(s, step))
  {
    match step
    case Stall(t) => LeadAtKeepsInv(s, t, Stalled);
    case Resume(t) => LeadAtKeepsInv(s, t, Preparing);
    case FormGroup(t, n) => FormGroupKeepsInv(s, t, n);
    case AnswerAlone(t, ok) => AnswerAloneKeepsInv(s, t, ok);
    case WriteLog(t, ok) => WriteLogKeepsInv(s, t, ok);
    case Relock(t) => RelockKeepsInv(s, t);
    case Answer(t) => AnswerKeepsInv(s, t);
    case Rouse(t) => RouseKeepsInv(s, t);
    case HandOver(t) => HandOverKeepsInv(s, t);
    case Return(t) => ReturnKeepsInv(s, t);
  }

  lemma StepKeepsInv(s: State, step: Step)
    requires Inv(s) && Enabled(s, step)
    ensures Inv(Took(s, step))
  {
    if OfWaiter(step) {
      WaiterKeepsInv(s, step);
    } else {
      LeaderKeepsInv(s, step);
    }
  }

  ghost predicate Steps(s: State, step: Step, n: State) {
    Enabled(s, step) && n == Took(s, step)
  }

  ghost predicate IsRun(states: seq<State>, steps: seq<Step>) {
    && |states| == |steps| + 1 && states[0] == Quiet()
    && forall i :: 0 <= i < |steps| ==> Steps(states[i], steps[i], states[i + 1])
  }

  lemma {:induction false} RunKeepsInv(states: seq<State>, steps: seq<Step>, i: nat)
    requires IsRun(states, steps) && i < |states|
    ensures Inv(states[i])
  {
    if i > 0 {
      RunKeepsInv(states, steps, i - 1);
      assert Steps(states[i - 1], steps[i - 1], states[i - 1 + 1]);
      StepKeepsInv(states[i - 1], steps[i - 1]);
    }
  }

  // ---------------------------------------------------------- sequence ranges

  function Size(s: State, t: nat): nat {
    if t in s.writers && s.writers[t].batch.Some? then s.writers[t].batch.value else 0
  }

  /** A record's count is what its writers' batches hold together. */
  ghost predicate CountOk(s: State, r: Record) {
    r.start + r.n <= |s.arrivals| && r.count == Counted(s, s.arrivals[r.start..r.start + r.n])
  }

  ghost predicate CountsOk(s: State) {
    forall k :: 0 <= k < |s.log| ==> CountOk(s, s.log[k])
  }

  lemma {:induction false} CountedSame(s: State, n: State, members: seq<nat>)
    requires forall t :: t in members ==> Size(n, t) == Size(s, t)
    ensures Counted(n, members) == Counted(s, members)
  {
    if members != [] {
      assert members[0] in members;
      CountedSame(s, n, members[1..]);
    }
  }

  /** No step changes a batch or takes an arrival back. */
  lemma {:induction false} BatchesStay(s: State, step: Step)
    requires Enabled(s, step)
    ensures s.arrivals <= Took(s, step).arrivals
    ensures forall t :: t in s.writers ==> Size(Took(s, step), t) == Size(s, t)
  {
    forall t | t in s.writers ensures Size(Took(s, step), t) == Size(s, t) {
      BatchStays(s, step, t);
    }
  }

  lemma {:induction false} BatchStays(s: State, step: Step, t: nat)
    requires Enabled(s, step) && t in s.writers
    ensures t in Took(s, step).writers && Took(s, step).writers[t].batch == s.writers[t].batch
  {
  }

  lemma {:induction false} CountStays(s: State, step: Step, r: Record)
    requires Enabled(s, step) && Arrived(s) && CountOk(s, r)
    ensures CountOk(Took(s, step), r)
  {
    var n := Took(s, step);
    BatchesStay(s, step);
    var members := s.arrivals[r.start..r.start + r.n];
    assert n.arrivals[r.start..r.start + r.n] == members;
    CountedSame(s, n, members);
  }

  lemma {:induction false} StepKeepsCounts(s: State, step: Step)
    requires Inv(s) && CountsOk(s) && Enabled(s, step)
    ensures CountsOk(Took(s, step))
  {
    var n := Took(s, step);
    forall k | 0 <= k < |n.log| ensures CountOk(n, n.log[k]) {
      if k < |s.log| {
        LogKept(s, step, k);
        CountStays(s, step, s.log[k]);
      } else {
        NewCount(s, step);
      }
    }
  }

  lemma {:induction false} LogKept(s: State, step: Step, k: nat)
    requires Enabled(s, step) && k < |s.log|
    ensures k < |Took(s, step).log| && Took(s, step).log[k] == s.log[k]
  {
  }

  lemma {:induction false} WroteCount(s: State, t: nat, ok: bool)
    requires Arrived(s) && Enabled(s, WriteLog(t, ok))
    ensures var n := Took(s, WriteLog(t, ok)); |n.log| == |s.log| + 1 && CountOk(s, n.log[|s.log|])
  {
    var n := s.writers[t].pc.lead.n;
    assert Queue(s)[..n] == s.arrivals[s.popped..s.popped + n];
  }

  lemma {:induction false} NewCount(s: State, step: Step)
    requires Arrived(s) && Enabled(s, step) && |s.log| < |Took(s, step).log|
    ensures |Took(s, step).log| == |s.log| + 1 && CountOk(Took(s, step), Took(s, step).log[|s.log|])
  {
    WroteCount(s, step.t, step.ok);
    CountStays(s, step, Took(s, step).log[|s.log|]);
  }

  lemma CountsNext(s: State, step: Step, n: State)
    requires Inv(s) && CountsOk(s) && Steps(s, step, n)
    ensures CountsOk(n)
  {
    StepKeepsCounts(s, step);
  }

  lemma {:induction false} RunKeepsCounts(states: seq<State>, steps: seq<Step>, i: nat)
    requires IsRun(states, steps) && i < |states|
    ensures CountsOk(states[i])
  {
    if i > 0 {
      RunKeepsCounts(states, steps, i - 1);
      RunKeepsInv(states, steps, i - 1);
      assert Steps(states[i - 1], steps[i - 1], states[i - 1 + 1]);
      CountsNext(states[i - 1], steps[i - 1], states[i]);
    }
  }

  lemma RunKeepsOrder(states: seq<State>, steps: seq<Step>, i: nat)
    requires IsRun(states, steps) && i < |states|
    ensures LogOrdered(states[i].log) && CountsOk(states[i])
  {
    RunKeepsInv(states, steps, i);
    RunKeepsCounts(states, steps, i);
  }

  /** The number of the first entry of arrival i's own batch, in record k. */
  ghost function FirstOf(s: State, k: nat, i: nat): nat
    requires k < |s.log| && s.log[k].start <= i <= |s.arrivals|
  {
    s.log[k].first + Counted(s, s.arrivals[s.log[k].start..i])
  }

  lemma {:induction false} CountedMore(s: State, members: seq<nat>, t: nat)
    ensures Counted(s, members + [t]) == Counted(s, members) + Size(s, t)
  {
    if members == [] {
      assert [t][1..] == [];
    } else {
      assert (members + [t])[1..] == members[1..] + [t];
      CountedMore(s, members[1..], t);
    }
  }

  lemma {:induction false} NextFirstOf(s: State, k: nat, i: nat)
    requires k < |s.log| && s.log[k].start <= i < |s.arrivals|
    ensures FirstOf(s, k, i + 1) == FirstOf(s, k, i) + Size(s, s.arrivals[i])
  {
    var a := s.log[k].start;
    assert s.arrivals[a..i + 1] == s.arrivals[a..i] + [s.arrivals[i]];
    CountedMore(s, s.arrivals[a..i], s.arrivals[i]);
  }

  lemma {:induction false} FirstOfGrows(s: State, k: nat, i: nat, j: nat)
    requires k < |s.log| && s.log[k].start <= i <= j <= |s.arrivals|
    ensures FirstOf(s, k, i) <= FirstOf(s, k, j)
    decreases j
  {
    if i < j {
      FirstOfGrows(s, k, i, j - 1);
      NextFirstOf(s, k, j - 1);
    }
  }

  lemma {:induction false} OwnRangeIn(s: State, k: nat, i: nat)
    requires CountsOk(s) && Carries(s, k, i)
    ensures i < |s.arrivals| && FirstOf(s, k, i + 1) == FirstOf(s, k, i) + Size(s, s.arrivals[i])
    ensures i == s.log[k].start ==> FirstOf(s, k, i) == s.log[k].first
    ensures i + 1 == s.log[k].start + s.log[k].n ==> FirstOf(s, k, i + 1) == s.log[k].first + s.log[k].count
  {
    assert CountOk(s, s.log[k]);
    NextFirstOf(s, k, i);
    assert s.arrivals[i..i] == [];
  }

  /** Within a record the writers' ranges follow one another, from the record's
      first number to its last. */
  lemma {:induction false} OwnRange(states: seq<State>, steps: seq<Step>, m: nat, k: nat, i: nat)
    requires IsRun(states, steps) && m < |states| && Carries(states[m], k, i)
    ensures var s := states[m];
            && i < |s.arrivals|
            && (i == s.log[k].start ==> FirstOf(s, k, i) == s.log[k].first)
            && FirstOf(s, k, i + 1) == FirstOf(s, k, i) + Size(s, s.arrivals[i])
            && (i + 1 == s.log[k].start + s.log[k].n ==> FirstOf(s, k, i + 1) == s.log[k].first + s.log[k].count)
  {
    RunKeepsOrder(states, steps, m);
    OwnRangeIn(states[m], k, i);
  }

  lemma {:induction false} LaterRecord(s: State, k: nat, i: nat, l: nat, j: nat)
    requires LogOrdered(s.log) && Carries(s, k, i) && Carries(s, l, j) && i < j
    ensures k <= l
  {
    if l < k {
      RecordsFollow(s.log, l, k);
    }
  }

  /** A writer's range lies in its record's, and before a later member's. */
  lemma {:induction false} RangeInRecord(s: State, k: nat, i: nat)
    requires CountsOk(s) && Carries(s, k, i)
    ensures i < |s.arrivals| && s.log[k].first <= FirstOf(s, k, i)
    ensures FirstOf(s, k, i) + Size(s, s.arrivals[i]) <= s.log[k].first + s.log[k].count
    ensures forall j :: i < j && Carries(s, k, j) ==> FirstOf(s, k, i) + Size(s, s.arrivals[i]) <= FirstOf(s, k, j)
  {
    assert CountOk(s, s.log[k]);
    NextFirstOf(s, k, i);
    FirstOfGrows(s, k, i + 1, s.log[k].start + s.log[k].n);
    forall j | i < j && Carries(s, k, j) ensures FirstOf(s, k, i + 1) <= FirstOf(s, k, j) {
      FirstOfGrows(s, k, i + 1, j);
    }
  }

  lemma {:induction false} RecordsApart(s: State, k: nat, i: nat, l: nat, j: nat)
    requires LogOrdered(s.log) && Carries(s, k, i) && Carries(s, l, j) && i < j
    ensures k == l || (k < l && s.log[k].first + s.log[k].count <= s.log[l].first)
  {
    LaterRecord(s, k, i, l, j);
    if k < l {
      RecordsFollow(s.log, k, l);
    }
  }

  /** No two writers share a number: the earlier arrival's range ends before the
      later one's begins, in the same record or another. */
  lemma {:induction false} RangesDisjoint(states: seq<State>, steps: seq<Step>, m: nat, k: nat, i: nat, l: nat, j: nat)
    requires IsRun(states, steps) && m < |states| && Carries(states[m], k, i) && Carries(states[m], l, j) && i < j
    ensures j < |states[m].arrivals|
    ensures FirstOf(states[m], k, i) + Size(states[m], states[m].arrivals[i]) <= FirstOf(states[m], l, j)
  {
    RunKeepsCounts(states, steps, m);
    RangeInRecord(states[m], k, i);
    RangeInRecord(states[m], l, j);
    RunKeepsOrder(states, steps, m);
    RecordsApart(states[m], k, i, l, j);
  }

  // ------------------------------------------------------------- what it means

  /** One leader at a time. */
  lemma OneLeader(states: seq<State>, steps: seq<Step>, i: nat, t: nat, u: nat)
    requires IsRun(states, steps) && i < |states| && Leads(states[i], t) && Leads(states[i], u)
    ensures t == u
  {
    RunKeepsInv(states, steps, i);
    assert WriterOk(states[i], t) && WriterOk(states[i], u);
  }

  lemma OthersAnswerNoOne(s: State, step: Step, t: nat)
    requires Enabled(s, step) && !step.Answer? && !step.Return? && t in s.writers
    ensures t in Took(s, step).writers && Took(s, step).writers[t].answer == s.writers[t].answer
  {
  }

  /** An answer, once given, is never given again. */
  lemma AnswersAreFinal(s: State, step: Step, t: nat)
    requires Inv(s) && Enabled(s, step) && t in s.writers && s.writers[t].answer.Some?
    ensures t in Took(s, step).writers && Took(s, step).writers[t].answer == s.writers[t].answer
  {
    if step.Answer? {
      LeaderFacts(s, step.t);
      AnsweredIs(s, step.t);
      FrontMember(s, step.t);
    } else if step.Return? {
      assert WriterOk(s, step.t);
    } else {
      OthersAnswerNoOne(s, step, t);
    }
  }

  /** So over a run a writer has one answer at most... */
  lemma {:induction false} AnsweredOnce(states: seq<State>, steps: seq<Step>, i: nat, j: nat, t: nat)
    requires IsRun(states, steps) && i <= j < |states| && t in states[i].writers && states[i].writers[t].answer.Some?
    ensures t in states[j].writers && states[j].writers[t].answer == states[i].writers[t].answer
    decreases j
  {
    if i < j {
      AnsweredOnce(states, steps, i, j - 1, t);
      AnswerStaysAt(states, steps, j - 1, t);
    }
  }

  lemma AnswerStaysAt(states: seq<State>, steps: seq<Step>, i: nat, t: nat)
    requires IsRun(states, steps) && i < |steps| && t in states[i].writers && states[i].writers[t].answer.Some?
    ensures t in states[i + 1].writers && states[i + 1].writers[t].answer == states[i].writers[t].answer
  {
    RunKeepsInv(states, steps, i);
    assert Steps(states[i], steps[i], states[i + 1]);
    AnswerStays(states[i], steps[i], states[i + 1], t);
  }

  lemma AnswerStays(s: State, step: Step, n: State, t: nat)
    requires Inv(s) && Steps(s, step, n) && t in s.writers && s.writers[t].answer.Some?
    ensures t in n.writers && n.writers[t].answer == s.writers[t].answer
  {
    AnswersAreFinal(s, step, t);
  }

  /** ...and by the time it returns, one at least. */
  lemma ReturnedIsAnswered(states: seq<State>, steps: seq<Step>, i: nat, t: nat)
    requires IsRun(states, steps) && i < |states| && t in states[i].writers && states[i].writers[t].pc.Returned?
    ensures states[i].writers[t].answer.Some?
  {
    RunKeepsInv(states, steps, i);
    assert WriterOk(states[i], t);
  }

  lemma {:induction false} RecordsFollow(log: seq<Record>, j: nat, k: nat)
    requires LogOrdered(log) && j < k < |log|
    ensures log[j].start + log[j].n <= log[k].start
    ensures log[j].first + log[j].count <= log[k].first
    ensures k == j + 1 ==> log[k].first == log[j].first + log[j].count
    decreases k
  {
    assert log[..k][k - 1] == log[k - 1];
    if j < k - 1 {
      RecordsFollow(log, j, k - 1);
    }
  }

  /** Later records take later arrivals, and number their entries from where
      the record before left off; a record counts its writers' entries. */
  lemma LogFollowsQueue(states: seq<State>, steps: seq<Step>, m: nat, j: nat, k: nat)
    requires IsRun(states, steps) && m < |states| && j < k < |states[m].log|
    ensures var s := states[m];
            && s.log[j].start + s.log[j].n <= s.log[k].start
            && s.log[j].first + s.log[j].count <= s.log[k].first
            && (k == j + 1 ==> s.log[k].first == s.log[j].first + s.log[j].count)
            && CountOk(s, s.log[j]) && CountOk(s, s.log[k])
  {
    RunKeepsOrder(states, steps, m);
    RecordsFollow(states[m].log, j, k);
  }

  lemma OneRecord(s: State, i: nat, j: nat, k: nat)
    requires LogOrdered(s.log) && Carries(s, j, i) && Carries(s, k, i)
    ensures j == k
  {
    if j < k {
      RecordsFollow(s.log, j, k);
    } else if k < j {
      RecordsFollow(s.log, k, j);
    }
  }

  /** A writer with a batch, leader or member, is told its write succeeded if
      and only if its batch is in a record that was written.  It is in one at
      most, which was synced if it asked for that. */
  lemma ToldTheTruth(states: seq<State>, steps: seq<Step>, m: nat, i: nat)
    requires IsRun(states, steps) && m < |states| && i < |states[m].arrivals|
    requires states[m].arrivals[i] in states[m].writers
    requires states[m].writers[states[m].arrivals[i]].answer.Some?
    requires states[m].writers[states[m].arrivals[i]].batch.Some?
    ensures var s, w := states[m], states[m].writers[states[m].arrivals[i]];
            && (w.answer.value <==> exists k: nat :: Carries(s, k, i) && s.log[k].ok)
            && (forall j: nat, k: nat :: Carries(s, j, i) && Carries(s, k, i) ==> j == k)
            && (forall k: nat :: Carries(s, k, i) && w.sync ==> s.log[k].synced)
  {
    var s := states[m];
    RunKeepsInv(states, steps, m);
    assert Told(s.writers[s.arrivals[i]], Carried(s, i));
    forall j: nat, k: nat | Carries(s, j, i) && Carries(s, k, i) ensures j == k {
      OneRecord(s, i, j, k);
    }
    forall k: nat | Carries(s, k, i) && s.writers[s.arrivals[i]].sync ensures s.log[k].synced {
      assert RecordOk(s, s.log[k]);
    }
  }

  // ------------------------------------------------------ records and outcomes

  /** Record r is what t wrote for its group, with this outcome. */
  ghost predicate WrittenBy(s: State, t: nat, ok: bool, r: Record) {
    && Leads(s, t) && s.popped < |s.arrivals| && s.arrivals[s.popped] == t && r.start == s.popped
    && s.writers[t].pc.lead == Logging(r.n) && r.ok == ok && r.synced == s.writers[t].sync
  }

  lemma WroteRecord(s: State, step: Step, n: State)
    requires Inv(s) && Steps(s, step, n) && |s.log| < |n.log|
    ensures step.WriteLog? && n.log == s.log + [n.log[|s.log|]] && WrittenBy(s, step.t, step.ok, n.log[|s.log|])
  {
    LeaderFacts(s, step.t);
  }

  lemma LogGrows(s: State, step: Step, n: State)
    requires Steps(s, step, n)
    ensures s.log <= n.log
  {
  }

  /** Every record is one write of the log, with the outcome it had. */
  lemma {:induction false} RecordIsWrite(states: seq<State>, steps: seq<Step>, m: nat, k: nat) returns (w: nat)
    requires IsRun(states, steps) && m < |states| && k < |states[m].log|
    ensures w < m && steps[w].WriteLog? && |states[w].log| == k
    ensures WrittenBy(states[w], steps[w].t, steps[w].ok, states[m].log[k])
    decreases m
  {
    var s, n := states[m - 1], states[m];
    assert Steps(s, steps[m - 1], states[m - 1 + 1]);
    LogGrows(s, steps[m - 1], n);
    if k < |s.log| {
      w := RecordIsWrite(states, steps, m - 1, k);
    } else {
      RunKeepsInv(states, steps, m - 1);
      WroteRecord(s, steps[m - 1], n);
      w := m - 1;
    }
  }

  /** Up to the last record, all were written; without an error, that one was
      too; and a group is only formed without one. */
  ghost predicate FailuresOk(s: State) {
    && (forall k :: 0 <= k < |s.log| - 1 ==> s.log[k].ok)
    && var lead := LeadOf(s);
       && (lead.Some? && lead.value.Logging? ==> !s.error)
       && (!(lead.Some? && lead.value.Logged?) && !s.error && s.log != [] ==> s.log[|s.log| - 1].ok)
  }

  lemma WriteKeepsFailures(s: State, t: nat, ok: bool)
    requires Inv(s) && FailuresOk(s) && Enabled(s, WriteLog(t, ok))
    ensures FailuresOk(Took(s, WriteLog(t, ok)))
  {
    var n := Took(s, WriteLog(t, ok));
    LeaderFacts(s, t);
    assert LeadOf(n) == Some(Logged(s.writers[t].pc.lead.n, ok));
  }

  lemma RelockKeepsFailures(s: State, t: nat)
    requires Inv(s) && FailuresOk(s) && Enabled(s, Relock(t))
    ensures FailuresOk(Took(s, Relock(t)))
  {
    LeaderFacts(s, t);
    var n := Took(s, Relock(t));
    RelockLead(s, t);
    RelockedFailures(s, n, s.writers[t].pc.lead.ok);
  }

  lemma RelockLead(s: State, t: nat)
    requires Enabled(s, Relock(t)) && s.leader == Some(t)
    ensures var n := Took(s, Relock(t));
            && n.log == s.log && n.error == (s.error || !s.writers[t].pc.lead.ok)
            && LeadOf(n).Some? && LeadOf(n).value.Answering?
  {
  }

  lemma RelockedFailures(s: State, n: State, ok: bool)
    requires FailuresOk(s) && s.log != [] && s.log[|s.log| - 1].ok == ok
    requires n.log == s.log && n.error == (s.error || !ok) && LeadOf(n).Some? && LeadOf(n).value.Answering?
    ensures FailuresOk(n)
  {
  }

  /** Nothing was logged, and the leader neither began to log nor left off,
      but for a group formed without an error. */
  ghost predicate NoWrite(s: State, n: State) {
    && n.log == s.log && n.error == s.error
    && (LeadOf(n).Some? && LeadOf(n).value.Logging? ==> LeadOf(n) == LeadOf(s) || !s.error)
    && (LeadOf(s).Some? && LeadOf(s).value.Logged? ==> LeadOf(n) == LeadOf(s))
  }

  lemma LookerLogsNothing(s: State, t: nat)
    requires Inv(s) && t in s.writers && s.mutex.None? && (s.writers[t].pc.Rechecking? || s.writers[t].pc.Waking?)
    ensures NoWrite(s, Looked(s, t, s.writers[t]))
  {
    assert WriterOk(s, t);
    if s.writers[t].flag.Promoted? {
      PromotedIsFront(s, t);
    }
  }

  lemma JoinerLogsNothing(s: State, t: nat, spin: bool)
    requires Inv(s) && Enabled(s, Enqueue(t, spin))
    ensures NoWrite(s, Took(s, Enqueue(t, spin)))
  {
    assert WriterOk(s, t);
    if s.popped == |s.arrivals| {
      EmptyIsFree(s);
      FrontLogsNothing(s, t, spin);
    } else {
      BackLogsNothing(s, t, spin);
    }
  }

  lemma FrontLogsNothing(s: State, t: nat, spin: bool)
    requires Enabled(s, Enqueue(t, spin)) && s.popped == |s.arrivals| && s.leader.None?
    ensures NoWrite(s, Took(s, Enqueue(t, spin)))
  {
  }

  lemma BackLogsNothing(s: State, t: nat, spin: bool)
    requires Enabled(s, Enqueue(t, spin)) && s.popped < |s.arrivals| && s.leader != Some(t)
    requires s.writers[t].flag.Waiting?
    ensures NoWrite(s, Took(s, Enqueue(t, spin)))
  {
    assert LeadOf(Took(s, Enqueue(t, spin))) == LeadOf(s);
  }

  lemma WaiterLogsNothing(s: State, step: Step)
    requires Inv(s) && Enabled(s, step) && OfWaiter(step)
    ensures NoWrite(s, Took(s, step))
  {
    match step
    case Call(t, _, _) => assert s.leader != Some(t);
    case Enqueue(t, spin) => JoinerLogsNothing(s, t, spin);
    case SpinEnds(t) => assert WriterOk(s, t);
    case Recheck(t) => LookerLogsNothing(s, t);
    case Spurious(t) => assert WriterOk(s, t);
    case WakeUp(t) => LookerLogsNothing(s, t);
  }

  lemma LeaderLogsNothing(s: State, step: Step)
    requires Inv(s) && Enabled(s, step) && !OfWaiter(step) && !step.WriteLog? && !step.Relock?
    ensures NoWrite(s, Took(s, step))
  {
    LeaderFacts(s, step.t);
  }

  lemma LogsNothing(s: State, step: Step)
    requires Inv(s) && Enabled(s, step) && !step.WriteLog? && !step.Relock?
    ensures NoWrite(s, Took(s, step))
  {
    if OfWaiter(step) {
      WaiterLogsNothing(s, step);
    } else {
      LeaderLogsNothing(s, step);
    }
  }

  lemma StepKeepsFailures(s: State, step: Step)
    requires Inv(s) && FailuresOk(s) && Enabled(s, step)
    ensures FailuresOk(Took(s, step))
  {
    if step.WriteLog? {
      WriteKeepsFailures(s, step.t, step.ok);
    } else if step.Relock? {
      RelockKeepsFailures(s, step.t);
    } else {
      LogsNothing(s, step);
    }
  }

  lemma FailuresNext(s: State, step: Step, n: State)
    requires Inv(s) && FailuresOk(s) && Steps(s, step, n)
    ensures FailuresOk(n)
  {
    StepKeepsFailures(s, step);
  }

  lemma {:induction false} RunKeepsFailures(states: seq<State>, steps: seq<Step>, i: nat)
    requires IsRun(states, steps) && i < |states|
    ensures FailuresOk(states[i])
  {
    if i > 0 {
      RunKeepsFailures(states, steps, i - 1);
      RunKeepsInv(states, steps, i - 1);
      assert Steps(states[i - 1], steps[i - 1], states[i - 1 + 1]);
      FailuresNext(states[i - 1], steps[i - 1], states[i]);
    }
  }

  /** After a write of the log that failed, none follows. */
  lemma FailureIsLast(states: seq<State>, steps: seq<Step>, m: nat, k: nat)
    requires IsRun(states, steps) && m < |states| && k < |states[m].log| && !states[m].log[k].ok
    ensures k == |states[m].log| - 1
  {
    RunKeepsFailures(states, steps, m);
  }

  // ------------------------------------------------------ a leader on its own

  /** t is on its way out with this outcome, or has been told it. */
  ghost predicate Settled(s: State, t: nat, ok: bool) {
    && t in s.writers
    && if s.writers[t].answer.Some? then s.writers[t].answer.value == ok
       else Leads(s, t) && !PrePop(s.writers[t].pc.lead) && OkOf(s.writers[t].pc.lead) == ok
  }

  lemma AnswerSettles(s: State, t: nat, ok: bool)
    requires Inv(s) && Enabled(s, Answer(t)) && Settled(s, t, ok) && s.writers[t].answer.None?
    ensures Settled(Took(s, Answer(t)), t, ok)
  {
    AnsweredIs(s, t);
    FrontMember(s, t);
  }

  lemma HandOverSettles(s: State, t: nat, ok: bool)
    requires Inv(s) && Enabled(s, HandOver(t)) && Settled(s, t, ok) && s.writers[t].answer.None?
    ensures Settled(Took(s, HandOver(t)), t, ok)
  {
    if s.popped < |s.arrivals| {
      FrontMember(s, t);
      assert Queue(s)[0] == s.arrivals[s.popped];
    }
  }

  lemma RouseSettles(s: State, t: nat, ok: bool)
    requires Inv(s) && Enabled(s, Rouse(t)) && Settled(s, t, ok) && s.writers[t].answer.None?
    ensures Settled(Took(s, Rouse(t)), t, ok)
  {
    RousedOne(s, t);
  }

  lemma OneLeads(s: State, t: nat, u: nat)
    requires Inv(s) && Leads(s, t) && Leads(s, u)
    ensures t == u
  {
    assert WriterOk(s, t) && WriterOk(s, u);
  }

  lemma OwnStepSettles(s: State, step: Step, t: nat, ok: bool)
    requires Inv(s) && Enabled(s, step) && !OfWaiter(step) && Settled(s, t, ok) && s.writers[t].answer.None?
    ensures Settled(Took(s, step), t, ok)
  {
    OneLeads(s, t, step.t);
    if step.Answer? {
      AnswerSettles(s, t, ok);
    } else if step.HandOver? {
      HandOverSettles(s, t, ok);
    } else if step.Rouse? {
      RouseSettles(s, t, ok);
    }
  }

  lemma WaiterLeavesIt(s: State, step: Step, t: nat)
    requires Inv(s) && Enabled(s, step) && OfWaiter(step) && Leads(s, t)
    ensures t in Took(s, step).writers && Took(s, step).writers[t] == s.writers[t]
  {
    assert step.t != t;
  }

  lemma StepSettles(s: State, step: Step, n: State, t: nat, ok: bool)
    requires Inv(s) && Steps(s, step, n) && Settled(s, t, ok)
    ensures Settled(n, t, ok)
  {
    if s.writers[t].answer.Some? {
      AnswersAreFinal(s, step, t);
    } else if OfWaiter(step) {
      WaiterLeavesIt(s, step, t);
    } else {
      OwnStepSettles(s, step, t, ok);
    }
  }

  lemma AloneSettles(s: State, t: nat, ok: bool, n: State)
    requires Steps(s, AnswerAlone(t, ok), n) && Inv(s)
    ensures Settled(n, t, ok)
  {
    assert WriterOk(s, t);
  }

  lemma SettlesAt(states: seq<State>, steps: seq<Step>, i: nat, t: nat, ok: bool)
    requires IsRun(states, steps) && i < |steps| && (steps[i] == AnswerAlone(t, ok) || Settled(states[i], t, ok))
    ensures Settled(states[i + 1], t, ok)
  {
    RunKeepsInv(states, steps, i);
    assert Steps(states[i], steps[i], states[i + 1]);
    if Settled(states[i], t, ok) {
      StepSettles(states[i], steps[i], states[i + 1], t, ok);
    } else {
      AloneSettles(states[i], t, ok, states[i + 1]);
    }
  }

  lemma {:induction false} StaysSettled(states: seq<State>, steps: seq<Step>, i: nat, j: nat, t: nat, ok: bool)
    requires IsRun(states, steps) && i < j < |states| && steps[i] == AnswerAlone(t, ok)
    ensures Settled(states[j], t, ok)
    decreases j
  {
    if i + 1 < j {
      StaysSettled(states, steps, i, j - 1, t, ok);
    }
    SettlesAt(states, steps, j - 1, t, ok);
  }

  /** A leader that logs nothing, having no batch or no room, is told how
      making room went. */
  lemma AloneIsTold(states: seq<State>, steps: seq<Step>, i: nat, j: nat, t: nat, ok: bool)
    requires IsRun(states, steps) && i < j < |states| && steps[i] == AnswerAlone(t, ok)
    requires t in states[j].writers && states[j].writers[t].pc.Returned?
    ensures states[j].writers[t].answer == Some(ok)
  {
    StaysSettled(states, steps, i, j, t, ok);
    ReturnedIsAnswered(states, steps, j, t);
  }

  /** While the leader waits for room or writes the log, others may come. */
  lemma FreeWhileAway(states: seq<State>, steps: seq<Step>, i: nat, u: nat, spin: bool)
    requires IsRun(states, steps) && i < |steps| && (steps[i].Stall? || steps[i].FormGroup?)
    requires u in states[i].writers && states[i].writers[u].pc.Entering?
    ensures Enabled(states[i + 1], Enqueue(u, spin))
  {
    assert Steps(states[i], steps[i], states[i + 1]);
  }

  /** No one sleeps through its wake-up: asleep, it has not been released, or
      its waking is the leader's next step. */
  lemma NoMissedWakeUp(states: seq<State>, steps: seq<Step>, i: nat, t: nat)
    requires IsRun(states, steps) && i < |states| && t in states[i].writers && states[i].writers[t].pc.Asleep?
    ensures states[i].writers[t].flag.Parked? || (states[i].leader.Some? &&
        Enabled(states[i], Rouse(states[i].leader.value)) && Roused(states[i], t))
  {
    RunKeepsInv(states, steps, i);
    assert WriterOk(states[i], t);
  }

  /** A leader touches no writer that has returned: not the one it answers, the
      one it promotes, or the one it wakes. */
  lemma NoneTouchedAfterReturn(states: seq<State>, steps: seq<Step>, i: nat, t: nat)
    requires IsRun(states, steps) && i < |states| && Leads(states[i], t)
    ensures var s, lead := states[i], states[i].writers[t].pc.lead;
            && (lead.Answering? && s.popped < |s.arrivals| ==>
                  s.arrivals[s.popped] in s.writers && !s.writers[s.arrivals[s.popped]].pc.Returned?)
            && (lead.Rousing? || lead.RousingNext? ==> lead.w in s.writers && !s.writers[lead.w].pc.Returned?)
  {
    var s, lead := states[i], states[i].writers[t].pc.lead;
    RunKeepsInv(states, steps, i);
    if lead.Answering? && s.popped < |s.arrivals| {
      FrontMember(s, t);
    }
    if lead.Rousing? || lead.RousingNext? {
      RousedOne(s, t);
    }
  }

  /** While anyone waits, the leader, or the writer promoted to lead, can move. */
  lemma NeverStuck(states: seq<State>, steps: seq<Step>, i: nat) returns (step: Step)
    requires IsRun(states, steps) && i < |states| && states[i].popped < |states[i].arrivals|
    ensures Enabled(states[i], step) && !step.Call? && !step.Enqueue? && !step.Spurious? && !step.Stall?
    ensures states[i].leader == Some(step.t) || (states[i].leader.None? &&
        step.t == states[i].arrivals[states[i].popped])
  {
    var s := states[i];
    RunKeepsInv(states, steps, i);
    if s.leader.Some? {
      step := LeaderMoves(s, s.leader.value);
    } else {
      step := FrontMoves(s);
    }
  }

  lemma LeaderMoves(s: State, t: nat) returns (step: Step)
    requires Inv(s) && s.leader == Some(t)
    ensures Enabled(s, step) && step.t == t && !step.Call? && !step.Enqueue? && !step.Spurious? && !step.Stall?
  {
    LeaderFacts(s, t);
    match s.writers[t].pc.lead
    case Preparing =>
      if !s.error && s.writers[t].batch.Some? {
        step := FormGroup(t, 1);
      } else {
        step := AnswerAlone(t, false);
      }
    case Stalled => step := Resume(t);
    case Logging(_) => step := WriteLog(t, true);
    case Logged(_, _) => step := Relock(t);
    case Answering(n, _) =>
      if s.popped < |s.arrivals| {
        FrontMember(s, t);
      }
      step := if n > 0 then Answer(t) else HandOver(t);
    case Rousing(_, _, _) =>
      RousedOne(s, t);
      step := Rouse(t);
    case RousingNext(_, _) =>
      RousedOne(s, t);
      step := Rouse(t);
    case Leaving(_) => step := Return(t);
  }

  lemma FrontMoves(s: State) returns (step: Step)
    requires Inv(s) && s.leader.None? && s.popped < |s.arrivals|
    ensures Enabled(s, step) && step.t == s.arrivals[s.popped] && (step.SpinEnds? || step.Recheck? || step.WakeUp?)
  {
    var t := s.arrivals[s.popped];
    assert QueuedOk(s, s.popped);
    assert WriterOk(s, t) && !Roused(s, t);
    step := match s.writers[t].pc {
      case Spinning => SpinEnds(t)
      case Rechecking => Recheck(t)
      case _ => WakeUp(t)
    };
  }
}
