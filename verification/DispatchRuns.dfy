// All interleavings of the request tasks that srv.rs spawns, one per message, over the shared
// fid table. A step is one critical section: the lookups start a read section that lasts until
// the filesystem call returns, each table change is its own write section, and the reply is sent
// last.
module DispatchRuns {
  import opened Wrappers
  import opened Protocol
  import opened Dispatch

  datatype Phase =
    | Received                    // spawned, has not taken the read lock
    | Calling                     // holds the read lock, the filesystem call is running
    | Removing(reply: Fcall)      // Tclunk succeeded, the fid is still in the table
    | Inserting(reply: Fcall)     // the new fid is not in the table yet
    | Replying(reply: Fcall)      // the table is up to date, the reply is not sent
    | Finished(reply: Fcall)

  datatype Task = Task(looked: Looked, phase: Phase)

  /** What the run did, in order. */
  datatype Event = Changed(task: nat, fid: u32) | Sent(task: nat, msg: Msg)

  datatype State = State(table: Table, arrivals: seq<Request>, tasks: seq<Task>, events: seq<Event>)

  const Init := State(map[], [], [], [])

  datatype Label =
    | Receive(msg: Msg)
    | Lookup(i: nat)
    | Return(i: nat)
    | Remove(i: nat)
    | Insert(i: nat)
    | Reply(i: nat)

  /** Some task is inside its read section. */
  predicate Reading(s: State) {
    exists i | 0 <= i < |s.tasks| :: s.tasks[i].phase.Calling?
  }

  predicate Enabled(s: State, l: Label) {
    |s.tasks| == |s.arrivals| &&
    match l
    case Receive(_) => true
    case Lookup(i) => i < |s.tasks| && s.tasks[i].phase.Received?
    case Return(i) => i < |s.tasks| && s.tasks[i].phase.Calling?
    case Remove(i) => i < |s.tasks| && s.tasks[i].phase.Removing? && !Reading(s)
    case Insert(i) => i < |s.tasks| && s.tasks[i].phase.Inserting? && !Reading(s)
    case Reply(i) => i < |s.tasks| && s.tasks[i].phase.Replying?
  }

  /** Where a task goes once the filesystem has answered. */
  function AfterCall(r: Request, o: Outcome): Phase {
    match o
    case Failed(_) => Replying(ReplyBody(o))
    case Replied(body) =>
      match r.change
      case NoChange => Replying(body)
      case Drop(_) => Removing(body)
      case Bind(_) => Inserting(body)
  }

  function Advance(s: State, i: nat, t: Task): State
    requires i < |s.tasks|
  {
    s.(tasks := s.tasks[i := t])
  }

  function Next(s: State, l: Label, fs: Filesystem): State
    requires Enabled(s, l)
  {
    match l
    case Receive(msg) =>
      s.(arrivals := s.arrivals + [RequestOf(msg)], tasks := s.tasks + [Task(Pending, Received)])
    case Lookup(i) =>
      var looked := Look(s.table, s.arrivals[i]);
      Advance(s, i, Task(looked,
                         if looked.Found? then Calling else Replying(ReplyBody(Answer(looked, i, fs)))))
    case Return(i) =>
      var looked := s.tasks[i].looked;
      if looked.Found? then
        Advance(s, i, Task(looked, AfterCall(s.arrivals[i], fs(i, looked.fids))))
      else s
    case Remove(i) =>
      var change := s.arrivals[i].change;
      if change.Drop? then
        Advance(s, i, s.tasks[i].(phase := Replying(s.tasks[i].phase.reply)))
          .(table := s.table - {change.fid}, events := s.events + [Changed(i, change.fid)])
      else s
    case Insert(i) =>
      var change := s.arrivals[i].change;
      if change.Bind? then
        Advance(s, i, s.tasks[i].(phase := Replying(s.tasks[i].phase.reply)))
          .(table := s.table[change.fid := Fid(change.fid, i)], events := s.events + [Changed(i, change.fid)])
      else s
    case Reply(i) =>
      var body := s.tasks[i].phase.reply;
      Advance(s, i, s.tasks[i].(phase := Finished(body)))
        .(events := s.events + (if IsR(body) then [Sent(i, Msg(s.arrivals[i].tag, body))] else []))
  }

  /** The state after a schedule, when every step of it is enabled. */
  function Run(ls: seq<Label>, fs: Filesystem): Option<State> {
    if ls == [] then Some(Init)
    else
      var before := Run(ls[..|ls| - 1], fs);
      if before.Some? && Enabled(before.value, ls[|ls| - 1]) then
        Some(Next(before.value, ls[|ls| - 1], fs))
      else None
  }

  /** Every request is finished. */
  ghost predicate Quiet(s: State) {
    forall i | 0 <= i < |s.tasks| :: s.tasks[i].phase.Finished?
  }

  lemma RunOneMore(ls: seq<Label>, l: Label, fs: Filesystem)
    requires Run(ls, fs).Some? && Enabled(Run(ls, fs).value, l)
    ensures Run(ls + [l], fs) == Some(Next(Run(ls, fs).value, l, fs))
  {
    assert (ls + [l])[..|ls|] == ls;
  }

  // ----- what every step keeps, whatever the clients do -----

  /** A task's phase is the one its lookups and the filesystem's answer lead to, and a task that is
      inside its read section still sees in the table exactly the fids it was given. */
  predicate TaskOk(s: State, i: nat, fs: Filesystem)
    requires i < |s.tasks| == |s.arrivals|
  {
    var t, r := s.tasks[i], s.arrivals[i];
    match t.phase
    case Received => t.looked.Pending?
    case Calling => t.looked.Found? && t.looked == Look(s.table, r)
    case Removing(b) => t.looked.Found? && fs(i, t.looked.fids) == Replied(b) && r.change.Drop?
    case Inserting(b) => t.looked.Found? && fs(i, t.looked.fids) == Replied(b) && r.change.Bind?
    case Replying(b) => !t.looked.Pending? && b == ReplyBody(Answer(t.looked, i, fs))
    case Finished(b) => !t.looked.Pending? && b == ReplyBody(Answer(t.looked, i, fs))
  }

  ghost predicate TasksOk(s: State, fs: Filesystem) {
    |s.tasks| == |s.arrivals| &&
    forall i | 0 <= i < |s.tasks| :: TaskOk(s, i, fs)
  }

  lemma TasksOkStep(s: State, l: Label, fs: Filesystem)
    requires TasksOk(s, fs) && Enabled(s, l)
    ensures TasksOk(Next(s, l, fs), fs)
  {
    var s' := Next(s, l, fs);
    forall j | 0 <= j < |s'.tasks| ensures TaskOk(s', j, fs) {
      if j < |s.tasks| {
        assert TaskOk(s, j, fs);
      }
    }
  }

  /** In every run a task inside its read section still has the entries it looked up. */
  lemma {:induction false} RunsKeepTasks(ls: seq<Label>, fs: Filesystem)
    requires Run(ls, fs).Some?
    ensures TasksOk(Run(ls, fs).value, fs)
  {
    if ls != [] {
      var n := |ls| - 1;
      RunsKeepTasks(ls[..n], fs);
      TasksOkStep(Run(ls[..n], fs).value, ls[n], fs);
    }
  }

  // ----- what each request does, in order -----

  /** The events of one request. */
  function Of(es: seq<Event>, i: nat): seq<Event> {
    if es == [] then []
    else
      var n := |es| - 1;
      Of(es[..n], i) + (if es[n].task == i then [es[n]] else [])
  }

  /** The one table change a request makes when the filesystem accepted it. */
  function ChangeOf(i: nat, r: Request, o: Outcome): seq<Event> {
    if o.Failed? || r.change.NoChange? then [] else [Changed(i, r.change.fid)]
  }

  /** The one reply, with the request's own tag, unless its body is not an R-message. */
  function ReplyOf(i: nat, r: Request, o: Outcome): seq<Event> {
    if IsR(ReplyBody(o)) then [Sent(i, Msg(r.tag, ReplyBody(o)))] else []
  }

  /** What request `i` has done by now: nothing, then its table change, then its reply. */
  ghost function Made(s: State, i: nat, fs: Filesystem): seq<Event>
    requires i < |s.tasks| == |s.arrivals|
  {
    var t, r := s.tasks[i], s.arrivals[i];
    if t.looked.Pending? || !(t.phase.Replying? || t.phase.Finished?) then []
    else
      var o := Answer(t.looked, i, fs);
      ChangeOf(i, r, o) + (if t.phase.Finished? then ReplyOf(i, r, o) else [])
  }

  ghost predicate HistoryOk(s: State, fs: Filesystem)
    requires |s.tasks| == |s.arrivals|
  {
    (forall k | 0 <= k < |s.events| :: s.events[k].task < |s.tasks|) &&
    forall i | 0 <= i < |s.tasks| :: Of(s.events, i) == Made(s, i, fs)
  }

  lemma {:induction false} NoEventsOf(es: seq<Event>, i: nat)
    requires forall k | 0 <= k < |es| :: es[k].task != i
    ensures Of(es, i) == []
  {
    if es != [] {
      NoEventsOf(es[..|es| - 1], i);
    }
  }

  lemma OfAppend(es: seq<Event>, e: Event, i: nat)
    ensures Of(es + [e], i) == Of(es, i) + (if e.task == i then [e] else [])
  {
    assert (es + [e])[..|es|] == es;
  }

  /** What a step leaves alone: the tasks and arrivals of the others, and the events before it. */
  lemma StepShape(s: State, l: Label, fs: Filesystem, j: nat)
    requires Enabled(s, l) && j < |s.tasks| && (l.Receive? || j != l.i)
    ensures var s' := Next(s, l, fs);
            && j < |s'.tasks| && s'.tasks[j] == s.tasks[j]
            && j < |s'.arrivals| && s'.arrivals[j] == s.arrivals[j]
            && (s'.events == s.events
                || (|s'.events| == |s.events| + 1 && s'.events == s.events + [s'.events[|s.events|]]
                    && s'.events[|s.events|].task != j))
  {
  }

  lemma OthersKeep(s: State, s': State, fs: Filesystem, j: nat)
    requires j < |s.tasks| == |s.arrivals| && j < |s'.tasks| == |s'.arrivals|
    requires s'.tasks[j] == s.tasks[j] && s'.arrivals[j] == s.arrivals[j]
    requires Of(s.events, j) == Made(s, j, fs)
    requires s'.events == s.events
             || (|s'.events| == |s.events| + 1 && s'.events == s.events + [s'.events[|s.events|]]
                 && s'.events[|s.events|].task != j)
    ensures Of(s'.events, j) == Made(s', j, fs)
  {
    if s'.events != s.events {
      OfAppend(s.events, s'.events[|s.events|], j);
    }
  }

  /** A step of one task leaves the history of the others alone. */
  lemma HistoryOfOthers(s: State, l: Label, fs: Filesystem, j: nat)
    requires TasksOk(s, fs) && Enabled(s, l) && HistoryOk(s, fs)
    requires j < |s.tasks| && (l.Receive? || j != l.i)
    ensures Of(Next(s, l, fs).events, j) == Made(Next(s, l, fs), j, fs)
  {
    StepShape(s, l, fs, j);
    OthersKeep(s, Next(s, l, fs), fs, j);
  }

  /** The table changes and the reply are appended to the history of its own request. */
  lemma HistoryOfChange(s: State, l: Label, fs: Filesystem)
    requires TasksOk(s, fs) && Enabled(s, l) && HistoryOk(s, fs) && (l.Remove? || l.Insert?)
    ensures Of(Next(s, l, fs).events, l.i) == Made(Next(s, l, fs), l.i, fs)
  {
    var s' := Next(s, l, fs);
    assert TaskOk(s, l.i, fs);
    assert Of(s.events, l.i) == Made(s, l.i, fs) == [];
    var e := s'.events[|s.events|];
    assert s'.events == s.events + [e];
    OfAppend(s.events, e, l.i);
  }

  lemma HistoryOfReply(s: State, i: nat, fs: Filesystem)
    requires TasksOk(s, fs) && Enabled(s, Reply(i)) && HistoryOk(s, fs)
    ensures Of(Next(s, Reply(i), fs).events, i) == Made(Next(s, Reply(i), fs), i, fs)
  {
    var s' := Next(s, Reply(i), fs);
    assert TaskOk(s, i, fs);
    assert Of(s.events, i) == Made(s, i, fs);
    if s'.events != s.events {
      var e := s'.events[|s.events|];
      assert s'.events == s.events + [e];
      OfAppend(s.events, e, i);
    }
  }

  lemma HistoryOfCall(s: State, l: Label, fs: Filesystem)
    requires TasksOk(s, fs) && Enabled(s, l) && HistoryOk(s, fs) && (l.Lookup? || l.Return?)
    ensures Of(Next(s, l, fs).events, l.i) == Made(Next(s, l, fs), l.i, fs)
  {
    assert TaskOk(s, l.i, fs);
    assert Of(s.events, l.i) == Made(s, l.i, fs) == [];
  }

  lemma HistoryStep(s: State, l: Label, fs: Filesystem)
    requires TasksOk(s, fs) && Enabled(s, l) && HistoryOk(s, fs)
    ensures |Next(s, l, fs).tasks| == |Next(s, l, fs).arrivals| && HistoryOk(Next(s, l, fs), fs)
  {
    var s' := Next(s, l, fs);
    forall j | 0 <= j < |s'.tasks| ensures Of(s'.events, j) == Made(s', j, fs) {
      if j == |s.tasks| {
        NoEventsOf(s.events, j);
      } else if l.Receive? || j != l.i {
        HistoryOfOthers(s, l, fs, j);
      } else {
        match l
        case Remove(_) => HistoryOfChange(s, l, fs);
        case Insert(_) => HistoryOfChange(s, l, fs);
        case Reply(i) => HistoryOfReply(s, i, fs);
        case _ => HistoryOfCall(s, l, fs);
      }
    }
  }

  /** In every run, the events of a request are exactly: nothing until its table change, the change
      next, its reply last. So a reply follows its request's change, carries its request's tag and
      is sent at most once; and a request that failed has changed no fid. */
  lemma {:induction false} EveryRequestInOrder(ls: seq<Label>, fs: Filesystem)
    requires Run(ls, fs).Some?
    ensures TasksOk(Run(ls, fs).value, fs) && HistoryOk(Run(ls, fs).value, fs)
  {
    RunsKeepTasks(ls, fs);
    if ls != [] {
      var n := |ls| - 1;
      RunsKeepTasks(ls[..n], fs);
      EveryRequestInOrder(ls[..n], fs);
      HistoryStep(Run(ls[..n], fs).value, ls[n], fs);
    }
  }
}
