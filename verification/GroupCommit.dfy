/** The writer queue: whoever reaches its front leads, writing one log record
    for a group of writers and answering each of them.

    A writer waits by spinning on its own flag without the mutex, or asleep on
    its own condition.  Everything one thread does between two points another
    can see is one step: holding the mutex hides the queue, but not the flags,
    so a flag's exchange and the wake-up that may follow it are two. */
module GroupCommit {
  import opened Entries

  /** Writer::state. */
  datatype Flag = Waiting | Parked | Done | Promoted

  /** How far a leader is.  Those that hold the mutex are Preparing and
      everything from Answering on. */
  datatype Lead =
    | Preparing                              // make_room_for_write, then the group
    | Stalled                                // waiting in make_room_for_write
    | Logging(n: nat)                        // a group of n formed, mutex released
    | Logged(n: nat, ok: bool)               // record written, mutex wanted
    | Answering(n: nat, ok: bool)            // n group members still to answer
    | Rousing(w: nat, n: nat, ok: bool)      // exchanged w's flag, which was Parked
    | RousingNext(w: nat, ok: bool)          // the same, for the next leader
    | Leaving(ok: bool)

  datatype Pc = Entering | Spinning | Rechecking | Asleep | Waking | Leading(lead: Lead) | Returned

  /** One call of write(): how many entries its batch holds, if it has one. */
  datatype Writer = Writer(batch: Option<nat>, sync: bool, flag: Flag, pc: Pc, answer: Option<bool>)

  /** One log record: the writers arrivals[start..start + n], their entries
      numbered from `first`. */
  datatype Record = Record(start: nat, n: nat, first: nat, count: nat, synced: bool, ok: bool)

  /** `arrivals` is every writer in the order it joined the queue; the first
      `popped` of them have left it. */
  datatype State = State(writers: map<nat, Writer>, arrivals: seq<nat>, popped: nat, mutex: Option<nat>,
                         leader: Option<nat>, log: seq<Record>, last: nat, error: bool)

  function Queue(s: State): seq<nat> {
    if s.popped <= |s.arrivals| then s.arrivals[s.popped..] else []
  }

  function Put(s: State, t: nat, w: Writer): State {
    s.(writers := s.writers[t := w])
  }

  function Counted(s: State, members: seq<nat>): nat {
    if members == [] then 0
    else
      var t := members[0];
      (if t in s.writers && s.writers[t].batch.Some? then s.writers[t].batch.value else 0) + Counted(s, members[1..])
  }

  // -------------------------------------------------------------------- steps

  datatype Step =
    | Call(t: nat, batch: Option<nat>, sync: bool)
    | Enqueue(t: nat, spin: bool)
    | SpinEnds(t: nat)
    | Recheck(t: nat)
    | Spurious(t: nat)
    | WakeUp(t: nat)
    | Stall(t: nat)
    | Resume(t: nat)
    | FormGroup(t: nat, n: nat)
    | AnswerAlone(t: nat, ok: bool)
    | WriteLog(t: nat, ok: bool)
    | Relock(t: nat)
    | Answer(t: nat)
    | Rouse(t: nat)
    | HandOver(t: nat)
    | Return(t: nat)

  predicate Leads(s: State, t: nat) {
    t in s.writers && s.writers[t].pc.Leading?
  }

  /** Who may join the group that t leads. */
  predicate Joins(s: State, t: nat, w: nat)
    requires t in s.writers
  {
    w in s.writers && s.writers[w].batch.Some? && (s.writers[w].sync ==> s.writers[t].sync)
  }

  ghost predicate Enabled(s: State, step: Step) {
    match step
    case Call(t, _, _) => t !in s.writers
    case Enqueue(t, _) => t in s.writers && s.writers[t].pc.Entering? && s.mutex.None?
    case SpinEnds(t) => t in s.writers && s.writers[t].pc.Spinning?
    case Recheck(t) => t in s.writers && s.writers[t].pc.Rechecking? && s.mutex.None?
    case Spurious(t) => t in s.writers && s.writers[t].pc.Asleep?
    case WakeUp(t) => t in s.writers && s.writers[t].pc.Waking? && s.mutex.None?
    case Stall(t) => Leads(s, t) && s.writers[t].pc.lead.Preparing?
    case Resume(t) => Leads(s, t) && s.writers[t].pc.lead.Stalled? && s.mutex.None?
    case FormGroup(t, n) =>
      && Leads(s, t) && s.writers[t].pc.lead.Preparing? && !s.error && s.writers[t].batch.Some?
      && 1 <= n <= |Queue(s)| && forall i :: 1 <= i < n ==> Joins(s, t, Queue(s)[i])
    case AnswerAlone(t, ok) =>
      && Leads(s, t) && s.writers[t].pc.lead.Preparing?
      && (ok ==> s.writers[t].batch.None?) && |Queue(s)| > 0
    case WriteLog(t, ok) => Leads(s, t) && s.writers[t].pc.lead.Logging? && s.writers[t].pc.lead.n <= |Queue(s)|
    case Relock(t) => Leads(s, t) && s.writers[t].pc.lead.Logged? && s.mutex.None? && s.log != [] && |Queue(s)| > 0
    case Answer(t) =>
      && Leads(s, t) && s.writers[t].pc.lead.Answering? && s.writers[t].pc.lead.n > 0
      && |Queue(s)| > 0 && Queue(s)[0] in s.writers
    case Rouse(t) =>
      && Leads(s, t) && (s.writers[t].pc.lead.Rousing? || s.writers[t].pc.lead.RousingNext?)
      && s.writers[t].pc.lead.w in s.writers
    case HandOver(t) =>
      && Leads(s, t) && s.writers[t].pc.lead.Answering? && s.writers[t].pc.lead.n == 0
      && (|Queue(s)| > 0 ==> Queue(s)[0] in s.writers)
    case Return(t) => Leads(s, t) && s.writers[t].pc.lead.Leaving?
  }

  /** A writer that holds the mutex and reads its own flag: asleep, answered or
      in the lead. */
  function Looked(s: State, t: nat, w: Writer): State {
    match w.flag
    case Done => Put(s, t, w.(pc := Returned))
    case Promoted => Put(s, t, w.(pc := Leading(Preparing))).(mutex := Some(t), leader := Some(t))
    case _ => Put(s, t, w.(flag := Parked, pc := Asleep))
  }

  ghost function Took(s: State, step: Step): State
    requires Enabled(s, step)
  {
    match step
    case Call(t, batch, sync) => Put(s, t, Writer(batch, sync, Waiting, Entering, None))
    case Enqueue(t, spin) =>
      var w, joined := s.writers[t], s.(arrivals := s.arrivals + [t]);
      if Queue(s) == [] then Put(joined, t, w.(pc := Leading(Preparing))).(mutex := Some(t), leader := Some(t))
      else if spin then Put(joined, t, w.(pc := Spinning))
      else Looked(joined, t, w)
    case SpinEnds(t) =>
      var w := s.writers[t];
      Put(s, t, w.(pc := if w.flag.Done? then Returned else Rechecking))
    case Recheck(t) => Looked(s, t, s.writers[t])
    case Spurious(t) => Put(s, t, s.writers[t].(pc := Waking))
    case WakeUp(t) => Looked(s, t, s.writers[t])
    case Stall(t) => Put(s, t, s.writers[t].(pc := Leading(Stalled))).(mutex := None)
    case Resume(t) => Put(s, t, s.writers[t].(pc := Leading(Preparing))).(mutex := Some(t))
    case FormGroup(t, n) => Put(s, t, s.writers[t].(pc := Leading(Logging(n)))).(mutex := None)
    case AnswerAlone(t, ok) => Put(s, t, s.writers[t].(pc := Leading(Answering(0, ok)))).(popped := s.popped + 1)
    case WriteLog(t, ok) =>
      var w := s.writers[t];
      var n := w.pc.lead.n;
      Put(s, t, w.(pc := Leading(Logged(n, ok))))
        .(log := s.log + [Record(s.popped, n, s.last + 1, Counted(s, Queue(s)[..n]), w.sync, ok)])
    case Relock(t) =>
      var w, r := s.writers[t], s.log[|s.log| - 1];
      Put(s, t, w.(pc := Leading(Answering(if w.pc.lead.n == 0 then 0 else w.pc.lead.n - 1, w.pc.lead.ok))))
        .(mutex := Some(t), popped := s.popped + 1, last := s.last + r.count, error := s.error || !w.pc.lead.ok)
    case Answer(t) =>
      var w, r := s.writers[t], Queue(s)[0];
      var n, ok := w.pc.lead.n - 1, w.pc.lead.ok;
      var lead := if s.writers[r].flag.Parked? then Rousing(r, n, ok) else Answering(n, ok);
      Put(Put(s, r, s.writers[r].(flag := Done, answer := Some(ok))), t,
          w.(pc := Leading(lead))).(popped := s.popped + 1)
    case Rouse(t) =>
      var lead := s.writers[t].pc.lead;
      var after := if lead.Rousing? then Answering(lead.n, lead.ok) else Leaving(lead.ok);
      var roused := if s.writers[lead.w].pc.Asleep? then Put(s, lead.w, s.writers[lead.w].(pc := Waking)) else s;
      Put(roused, t, s.writers[t].(pc := Leading(after)))
    case HandOver(t) =>
      var w, ok := s.writers[t], s.writers[t].pc.lead.ok;
      if Queue(s) == [] then Put(s, t, w.(pc := Leading(Leaving(ok))))
      else
        var r := Queue(s)[0];
        var lead := if s.writers[r].flag.Parked? then RousingNext(r, ok) else Leaving(ok);
        Put(Put(s, r, s.writers[r].(flag := Promoted)), t, w.(pc := Leading(lead)))
    case Return(t) =>
      var w := s.writers[t];
      Put(s, t, w.(pc := Returned, answer := Some(w.pc.lead.ok))).(mutex := None, leader := None)
  }
}
