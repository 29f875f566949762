// The life cycle of sessions on a p9cpu server (server.rs): dial, forward, start and wait run as
// concurrent calls over two maps, each behind its own lock.
module Sessions {
  import opened Wrappers

  type Id = nat
  type Port = p: int | 0 <= p < 0x1_0000
  type Task = nat

  datatype Error = SessionNotExist | DuplicateId | No9pPort | BindFail | Fault

  /** How far a launch gets: no port can be bound for it, a later step fails, or the command runs. */
  datatype Launch = NoPort | Broken | Launched

  /** A session that was dialled but not started, and the port of its 9P forward, if there is one. */
  datatype Session = Session(forward: Option<Port>)

  datatype Shared = Shared(pending: map<Id, Option<Port>>, sessions: map<Id, Session>)

  // ----- the lock sections -----

  function Dial(s: Shared, id: Id): (Shared, Result<(), Error>) {
    if id in s.pending then (s, Err(DuplicateId))
    else (s.(pending := s.pending[id := None]), Ok(()))
  }

  function Forward(s: Shared, id: Id, port: Port): (Shared, Result<(), Error>) {
    if id !in s.pending then (s, Err(SessionNotExist))
    else (s.(pending := s.pending[id := Some(port)]), Ok(()))
  }

  /** The first section of `start`: it takes the pending entry away. */
  function Take(s: Shared, id: Id): (Shared, Result<Option<Port>, Error>) {
    if id !in s.pending then (s, Err(SessionNotExist))
    else (s.(pending := s.pending - {id}), Ok(s.pending[id]))
  }

  /** The second section of `start`, under the lock of the sessions until the session is in the map. */
  function Finish(s: Shared, id: Id, forward: Option<Port>, ninep: bool, launch: Launch): (Shared, Result<(), Error>) {
    if id in s.sessions then (s, Err(DuplicateId))
    else if launch.NoPort? then (s, Err(BindFail))
    else if ninep && forward.None? then (s, Err(No9pPort))
    else if launch.Broken? then (s, Err(Fault))
    else (s.(sessions := s.sessions[id := Session(forward)]), Ok(()))
  }

  function Remove(s: Shared, id: Id): Shared {
    s.(sessions := s.sessions - {id})
  }

  class Server {
    var pending: map<Id, Option<Port>>
    var sessions: map<Id, Session>

    constructor ()
      ensures State() == Shared(map[], map[])
    {
      pending, sessions := map[], map[];
    }

    function State(): Shared
      reads this
    {
      Shared(pending, sessions)
    }

    /** `dial`. */
    method DialSession(sid: Id) returns (r: Result<(), Error>)
      modifies this
      ensures (State(), r) == Dial(old(State()), sid)
      ensures r == if sid in old(pending) then Err(DuplicateId) else Ok(())
    {
      if sid in pending {
        return Err(DuplicateId);
      }
      pending := pending[sid := None];
      r := Ok(());
    }

    /** `ninep_forward`, up to where the forwarding task is attached. */
    method AttachForward(sid: Id, port: Port) returns (r: Result<(), Error>)
      modifies this
      ensures (State(), r) == Forward(old(State()), sid, port)
      ensures r == if sid in old(pending) then Ok(()) else Err(SessionNotExist)
    {
      if sid !in pending {
        return Err(SessionNotExist);
      }
      pending := pending[sid := Some(port)];
      r := Ok(());
    }

    method TakePending(sid: Id) returns (r: Result<Option<Port>, Error>)
      modifies this
      ensures (State(), r) == Take(old(State()), sid)
    {
      if sid !in pending {
        return Err(SessionNotExist);
      }
      r := Ok(pending[sid]);
      pending := pending - {sid};
    }

    method FinishStart(sid: Id, forward: Option<Port>, ninep: bool, launch: Launch) returns (r: Result<(), Error>)
      modifies this
      ensures (State(), r) == Finish(old(State()), sid, forward, ninep, launch)
    {
      if sid in sessions {
        return Err(DuplicateId);
      }
      if launch.NoPort? {
        return Err(BindFail);
      }
      if ninep && forward.None? {
        return Err(No9pPort);
      }
      if launch.Broken? {
        return Err(Fault);
      }
      sessions := sessions[sid := Session(forward)];
      r := Ok(());
    }

    /** `start`, when nothing comes between its two sections: the pending entry is gone in every case. */
    method Start(sid: Id, ninep: bool, launch: Launch) returns (r: Result<(), Error>)
      modifies this
      ensures pending == old(pending) - {sid}
      ensures r == if sid !in old(pending) then Err(SessionNotExist)
                   else if sid in old(sessions) then Err(DuplicateId)
                   else if launch.NoPort? then Err(BindFail)
                   else if ninep && old(pending)[sid].None? then Err(No9pPort)
                   else if launch.Broken? then Err(Fault)
                   else Ok(())
      ensures sessions == if r.Ok? then old(sessions)[sid := Session(old(pending)[sid])] else old(sessions)
    {
      var taken := TakePending(sid);
      if taken.Err? {
        return Err(taken.error);
      }
      r := FinishStart(sid, taken.value, ninep, launch);
    }

    /** `wait`, when nothing comes between its sections: the session is gone, however the child ended. */
    method Wait(sid: Id, status: Result<int, Error>) returns (r: Result<int, Error>)
      modifies this
      ensures r == if sid in old(sessions) then status else Err(SessionNotExist)
      ensures State() == Remove(old(State()), sid)
    {
      if sid !in sessions {
        assert sessions - {sid} == sessions;
        return Err(SessionNotExist);
      }
      sessions := sessions - {sid};
      r := status;
    }
  }

  // ----- runs -----

  /** A call of `start` between its sections, and a call of `wait` that found the child, or the child
      and then the handles. */
  datatype Starting = Starting(id: Id, forward: Option<Port>)
  datatype Waiting = Waiting(id: Id, joined: bool)

  /** What happened to an id. */
  datatype Note = Dialed(id: Id) | Forwarded(id: Id, port: Port) | Taken(id: Id)
                | Started(id: Id) | Failed(id: Id) | Removed(id: Id) | Nothing

  datatype System = System(shared: Shared, starting: map<Task, Starting>, waiting: map<Task, Waiting>, log: seq<Note>)

  datatype Event = CallDial(id: Id)
                 | CallForward(id: Id, port: Port)
                 | CallStart(task: Task, id: Id)
                 | EndStart(task: Task, ninep: bool, launch: Launch)
                 | CallWait(task: Task, id: Id)
                 | JoinHandles(task: Task)
                 | EndWait(task: Task)

  ghost predicate Enabled(s: System, e: Event) {
    match e
    case CallDial(_) => true
    case CallForward(_, _) => true
    case CallStart(t, _) => t !in s.starting
    case EndStart(t, _, _) => t in s.starting
    case CallWait(t, _) => t !in s.waiting
    case JoinHandles(t) => t in s.waiting && !s.waiting[t].joined
    case EndWait(t) => t in s.waiting && s.waiting[t].joined
  }

  function Next(s: System, e: Event): System
    requires e.EndStart? ==> e.task in s.starting
    requires e.JoinHandles? || e.EndWait? ==> e.task in s.waiting
  {
    match e
    case CallDial(id) =>
      var (shared, r) := Dial(s.shared, id);
      s.(shared := shared, log := s.log + [if r.Ok? then Dialed(id) else Nothing])
    case CallForward(id, port) =>
      var (shared, r) := Forward(s.shared, id, port);
      s.(shared := shared, log := s.log + [if r.Ok? then Forwarded(id, port) else Nothing])
    case CallStart(t, id) =>
      var (shared, r) := Take(s.shared, id);
      s.(shared := shared,
         starting := if r.Ok? then s.starting[t := Starting(id, r.value)] else s.starting,
         log := s.log + [if r.Ok? then Taken(id) else Nothing])
    case EndStart(t, ninep, launch) =>
      var c := s.starting[t];
      var (shared, r) := Finish(s.shared, c.id, c.forward, ninep, launch);
      s.(shared := shared, starting := s.starting - {t},
         log := s.log + [if r.Ok? then Started(c.id) else Failed(c.id)])
    case CallWait(t, id) =>
      s.(waiting := if id in s.shared.sessions then s.waiting[t := Waiting(id, false)] else s.waiting,
         log := s.log + [Nothing])
    case JoinHandles(t) =>
      var id := s.waiting[t].id;
      s.(waiting := if id in s.shared.sessions then s.waiting[t := Waiting(id, true)] else s.waiting - {t},
         log := s.log + [Nothing])
    case EndWait(t) =>
      var id := s.waiting[t].id;
      s.(shared := Remove(s.shared, id), waiting := s.waiting - {t},
         log := s.log + [if id in s.shared.sessions then Removed(id) else Nothing])
  }

  const INIT := System(Shared(map[], map[]), map[], map[], [])

  ghost predicate IsRun(states: seq<System>, events: seq<Event>) {
    && |states| == |events| + 1
    && states[0] == INIT
    && forall i | 0 <= i < |events| ::
         Enabled(states[i], events[i]) && states[i + 1] == Next(states[i], events[i])
  }

  // ----- where an id can be -----

  function Times(s: System, n: Note): nat {
    multiset(s.log)[n]
  }

  function InFlight(s: System, id: Id): set<Task> {
    set t | t in s.starting && s.starting[t].id == id
  }

  function One(b: bool): nat {
    if b then 1 else 0
  }

  /** The books of one id: a dialled id is pending or was taken; a taken one is being started, failed or
      was started; a started one is running or was removed. */
  ghost predicate Balanced(s: System, id: Id) {
    && Times(s, Dialed(id)) == One(id in s.shared.pending) + Times(s, Taken(id))
    && Times(s, Taken(id)) == |InFlight(s, id)| + Times(s, Failed(id)) + Times(s, Started(id))
    && Times(s, Started(id)) == One(id in s.shared.sessions) + Times(s, Removed(id))
  }

  lemma OneMore(s: System, n: Note)
    ensures multiset(s.log + [n]) == multiset(s.log) + multiset{n}
  {
  }

  lemma MoreInFlight(s: System, t: Task, c: Starting, id: Id)
    requires t !in s.starting
    ensures InFlight(s.(starting := s.starting[t := c]), id) == InFlight(s, id) + if c.id == id then {t} else {}
    ensures t !in InFlight(s, id)
  {
  }

  /** A step that changes neither the maps of the id nor its books keeps them balanced. */
  lemma Elsewhere(s: System, s': System, n: Note, id: Id)
    requires Balanced(s, id) && s'.log == s.log + [n]
    requires n.Nothing? || n.Forwarded? || n.id != id
    requires InFlight(s', id) == InFlight(s, id)
    requires id in s'.shared.pending <==> id in s.shared.pending
    requires id in s'.shared.sessions <==> id in s.shared.sessions
    ensures Balanced(s', id)
  {
    OneMore(s, n);
  }

  lemma DialBalances(s: System, id: Id)
    requires Balanced(s, id) && id !in s.shared.pending
    ensures Balanced(Next(s, CallDial(id)), id)
  {
    OneMore(s, Dialed(id));
    assert InFlight(Next(s, CallDial(id)), id) == InFlight(s, id);
  }

  lemma TakeBalances(s: System, t: Task, id: Id)
    requires Balanced(s, id) && id in s.shared.pending && t !in s.starting
    ensures Balanced(Next(s, CallStart(t, id)), id)
  {
    OneMore(s, Taken(id));
    MoreInFlight(s, t, Starting(id, s.shared.pending[id]), id);
    assert InFlight(Next(s, CallStart(t, id)), id) == InFlight(s, id) + {t};
  }

  lemma OneLessInFlight(s: System, s': System, t: Task, id: Id)
    requires t in s.starting && s.starting[t].id == id && s'.starting == s.starting - {t}
    ensures |InFlight(s', id)| == |InFlight(s, id)| - 1
  {
    assert InFlight(s', id) == InFlight(s, id) - {t};
    assert t in InFlight(s, id);
  }

  lemma EndBalances(s: System, s': System, id: Id, ok: bool)
    requires Balanced(s, id) && |InFlight(s', id)| == |InFlight(s, id)| - 1
    requires s'.log == s.log + [if ok then Started(id) else Failed(id)]
    requires id in s'.shared.pending <==> id in s.shared.pending
    requires if ok then id !in s.shared.sessions && id in s'.shared.sessions
             else id in s'.shared.sessions <==> id in s.shared.sessions
    ensures Balanced(s', id)
  {
    OneMore(s, if ok then Started(id) else Failed(id));
  }

  lemma FinishBalances(s: System, t: Task, ninep: bool, launch: Launch)
    requires t in s.starting && Balanced(s, s.starting[t].id)
    ensures Balanced(Next(s, EndStart(t, ninep, launch)), s.starting[t].id)
  {
    var c := s.starting[t];
    var s' := Next(s, EndStart(t, ninep, launch));
    OneLessInFlight(s, s', t, c.id);
    EndBalances(s, s', c.id, Finish(s.shared, c.id, c.forward, ninep, launch).1.Ok?);
  }

  lemma RemoveBalances(s: System, t: Task)
    requires t in s.waiting && Balanced(s, s.waiting[t].id) && s.waiting[t].id in s.shared.sessions
    ensures Balanced(Next(s, EndWait(t)), s.waiting[t].id)
  {
    var id := s.waiting[t].id;
    OneMore(s, Removed(id));
    assert InFlight(Next(s, EndWait(t)), id) == InFlight(s, id);
  }

  lemma StartElsewhere(s: System, e: Event, id: Id)
    requires Enabled(s, e) && (e.CallStart? || e.EndStart?)
    requires e.CallStart? ==> e.id != id || id !in s.shared.pending
    requires e.EndStart? ==> s.starting[e.task].id != id
    ensures InFlight(Next(s, e), id) == InFlight(s, id)
  {
  }

  lemma StepBalances(s: System, e: Event, id: Id)
    requires Enabled(s, e) && Balanced(s, id)
    ensures Balanced(Next(s, e), id)
  {
    if e.CallDial? && e.id == id && id !in s.shared.pending {
      DialBalances(s, id);
    } else if e.CallStart? && e.id == id && id in s.shared.pending {
      TakeBalances(s, e.task, id);
    } else if e.EndStart? && s.starting[e.task].id == id {
      FinishBalances(s, e.task, e.ninep, e.launch);
    } else if e.EndWait? && s.waiting[e.task].id == id && id in s.shared.sessions {
      RemoveBalances(s, e.task);
    } else {
      var s' := Next(s, e);
      if e.CallStart? || e.EndStart? {
        StartElsewhere(s, e, id);
      } else {
        assert s'.starting == s.starting;
      }
      Elsewhere(s, s', s'.log[|s.log|], id);
    }
  }

  /** In every run, every successful dial of every id is accounted for. */
  lemma {:induction false} EveryDialIsAccountedFor(states: seq<System>, events: seq<Event>, id: Id)
    requires IsRun(states, events)
    ensures Balanced(states[|events|], id)
    decreases |events|
  {
    if events == [] {
      assert InFlight(INIT, id) == {};
    } else {
      var n := |events| - 1;
      EveryDialIsAccountedFor(states[..n + 1], events[..n], id);
      StepBalances(states[n], events[n], id);
    }
  }

  // ----- what follows -----

  /** Dials of an id are its pending entry plus the starts that consumed it. */
  lemma DialsArePendingOrTaken(states: seq<System>, events: seq<Event>, id: Id)
    requires IsRun(states, events)
    ensures var s := states[|events|];
            Times(s, Dialed(id)) == One(id in s.shared.pending) + Times(s, Taken(id))
  {
    EveryDialIsAccountedFor(states, events, id);
  }

  /** An id that was dialled at most once is in at most one place: pending, being started by one call,
      running, failed or removed. */
  lemma FreshIdIsInOnePlace(states: seq<System>, events: seq<Event>, id: Id)
    requires IsRun(states, events) && Times(states[|events|], Dialed(id)) <= 1
    ensures var s := states[|events|];
            && One(id in s.shared.pending) + |InFlight(s, id)| + One(id in s.shared.sessions)
               + Times(s, Failed(id)) + Times(s, Removed(id)) == Times(s, Dialed(id))
            && !(id in s.shared.pending && id in s.shared.sessions)
            && Times(s, Taken(id)) <= 1 && Times(s, Started(id)) <= 1
  {
    EveryDialIsAccountedFor(states, events, id);
  }

  /** The log only grows. */
  lemma {:induction false} LogGrows(states: seq<System>, events: seq<Event>, i: nat, n: Note)
    requires IsRun(states, events) && i <= |events|
    ensures Times(states[i], n) <= Times(states[|events|], n)
    decreases |events|
  {
    if i < |events| {
      var m := |events| - 1;
      LogGrows(states[..m + 1], events[..m], i, n);
      var s' := Next(states[m], events[m]);
      OneMore(states[m], s'.log[|states[m].log|]);
      assert s'.log == states[m].log + [s'.log[|states[m].log|]];
    }
  }

  lemma PrefixRun(states: seq<System>, events: seq<Event>, i: nat)
    requires IsRun(states, events) && i <= |events|
    ensures IsRun(states[..i + 1], events[..i])
  {
  }

  /** With ids that are never dialled twice, no id is ever pending and running at once. */
  lemma FreshMapsAreDisjoint(states: seq<System>, events: seq<Event>, i: nat)
    requires IsRun(states, events) && i <= |events|
    requires forall id: Id :: Times(states[|events|], Dialed(id)) <= 1
    ensures states[i].shared.pending.Keys !! states[i].shared.sessions.Keys
  {
    forall id | id in states[i].shared.pending ensures id !in states[i].shared.sessions {
      PrefixRun(states, events, i);
      LogGrows(states, events, i, Dialed(id));
      FreshIdIsInOnePlace(states[..i + 1], events[..i], id);
    }
  }

  /** With a fresh id, `start` never finds the id in use. */
  lemma FreshStartIsNoDuplicate(states: seq<System>, events: seq<Event>, i: nat)
    requires IsRun(states, events) && i < |events| && events[i].EndStart?
    requires events[i].task in states[i].starting
    requires Times(states[|events|], Dialed(states[i].starting[events[i].task].id)) <= 1
    ensures var c := states[i].starting[events[i].task];
            Finish(states[i].shared, c.id, c.forward, events[i].ninep, events[i].launch).1 != Err(DuplicateId)
  {
    var t := events[i].task;
    var id := states[i].starting[t].id;
    PrefixRun(states, events, i);
    LogGrows(states, events, i, Dialed(id));
    FreshIdIsInOnePlace(states[..i + 1], events[..i], id);
    assert t in InFlight(states[i], id);
    assert |InFlight(states[i], id)| > 0;
  }

  /** A forward attaches exactly between a dial and the start that takes it. */
  lemma ForwardsBetweenDialAndStart(states: seq<System>, events: seq<Event>, i: nat)
    requires IsRun(states, events) && i < |events| && events[i].CallForward?
    ensures var id := events[i].id;
            Forward(states[i].shared, id, events[i].port).1.Ok?
            <==> Times(states[i], Dialed(id)) == Times(states[i], Taken(id)) + 1
  {
    PrefixRun(states, events, i);
    EveryDialIsAccountedFor(states[..i + 1], events[..i], events[i].id);
  }

  /** Once a fresh id is removed by `wait`, it is never pending, being started or running again. */
  lemma RemovedNeverReturns(states: seq<System>, events: seq<Event>, i: nat, j: nat, id: Id)
    requires IsRun(states, events) && i <= j <= |events|
    requires Times(states[|events|], Dialed(id)) <= 1 && Times(states[i], Removed(id)) > 0
    ensures id !in states[j].shared.pending && id !in states[j].shared.sessions && InFlight(states[j], id) == {}
  {
    PrefixRun(states, events, j);
    LogGrows(states, events, j, Dialed(id));
    LogGrows(states[..j + 1], events[..j], i, Removed(id));
    FreshIdIsInOnePlace(states[..j + 1], events[..j], id);
  }

  /** Every call of `wait` under way is for an id that was started. */
  ghost predicate WaitsForStarted(s: System) {
    forall t | t in s.waiting :: Times(s, Started(s.waiting[t].id)) > 0
  }

  lemma StepWaits(s: System, e: Event)
    requires Enabled(s, e) && WaitsForStarted(s)
    requires e.CallWait? ==> Balanced(s, e.id)
    ensures WaitsForStarted(Next(s, e))
  {
    var s' := Next(s, e);
    OneMore(s, s'.log[|s.log|]);
    assert s'.log == s.log + [s'.log[|s.log|]];
    forall t | t in s'.waiting ensures Times(s', Started(s'.waiting[t].id)) > 0 {
      assert t in s.waiting ==> Times(s, Started(s.waiting[t].id)) > 0;
    }
  }

  lemma {:induction false} EveryWaitIsForStarted(states: seq<System>, events: seq<Event>)
    requires IsRun(states, events)
    ensures WaitsForStarted(states[|events|])
    decreases |events|
  {
    if events != [] {
      var n := |events| - 1;
      EveryWaitIsForStarted(states[..n + 1], events[..n]);
      if events[n].CallWait? {
        EveryDialIsAccountedFor(states[..n + 1], events[..n], events[n].id);
      }
      StepWaits(states[n], events[n]);
    }
  }

  /** In every run, when a wait ends some session was started under its id, and as many were removed: none
      is in the map. If the id was dialled again, the last one need not be the one that the wait found. */
  lemma WaitEndsSession(states: seq<System>, events: seq<Event>, i: nat)
    requires IsRun(states, events) && i < |events| && events[i].EndWait?
    requires events[i].task in states[i].waiting
    ensures var id := states[i].waiting[events[i].task].id;
            && Times(states[i + 1], Started(id)) == Times(states[i + 1], Removed(id)) > 0
            && id !in states[i + 1].shared.sessions
  {
    var id := states[i].waiting[events[i].task].id;
    PrefixRun(states, events, i);
    EveryWaitIsForStarted(states[..i + 1], events[..i]);
    PrefixRun(states, events, i + 1);
    LogGrows(states[..i + 2], events[..i + 1], i, Started(id));
    EveryDialIsAccountedFor(states[..i + 2], events[..i + 1], id);
    assert states[i + 1] == Next(states[i], events[i]);
  }

  /** ... so with a fresh id it is over for good: the id is never pending, being started or running
      after a wait for it ended. */
  lemma WaitEndsForGood(states: seq<System>, events: seq<Event>, i: nat, j: nat)
    requires IsRun(states, events) && i < j <= |events| && events[i].EndWait?
    requires events[i].task in states[i].waiting
    requires Times(states[|events|], Dialed(states[i].waiting[events[i].task].id)) <= 1
    ensures var id := states[i].waiting[events[i].task].id;
            id !in states[j].shared.pending && id !in states[j].shared.sessions && InFlight(states[j], id) == {}
  {
    WaitEndsSession(states, events, i);
    RemovedNeverReturns(states, events, i + 1, j, states[i].waiting[events[i].task].id);
  }

  /** The step is the end of a wait for the id. */
  predicate EndsWaitFor(s: System, e: Event, id: Id) {
    e.EndWait? && e.task in s.waiting && s.waiting[e.task].id == id
  }

  /** One call of `wait`: task `t` finds a session of `id` at `c`, and its end is the one at `i`. */
  ghost predicate OneWait(states: seq<System>, events: seq<Event>, c: nat, i: nat, t: Task, id: Id) {
    && IsRun(states, events) && c < i < |events|
    && events[c] == CallWait(t, id) && id in states[c].shared.sessions && events[i] == EndWait(t)
    && forall k | c < k < i :: !(events[k].CallWait? && events[k].task == t)
  }

  lemma {:induction false} WaitIsUnderWay(states: seq<System>, events: seq<Event>,
                                          c: nat, i: nat, t: Task, id: Id, k: nat)
    requires OneWait(states, events, c, i, t, id) && c < k <= i
    ensures t in states[k].waiting
    decreases i - k
  {
    assert Enabled(states[k], events[k]);
    if k < i {
      WaitIsUnderWay(states, events, c, i, t, id, k + 1);
      assert states[k + 1] == Next(states[k], events[k]);
    }
  }

  lemma {:induction false} WaitKeepsId(states: seq<System>, events: seq<Event>,
                                       c: nat, i: nat, t: Task, id: Id, k: nat)
    requires OneWait(states, events, c, i, t, id) && c < k <= i
    ensures t in states[k].waiting && states[k].waiting[t].id == id
  {
    WaitIsUnderWay(states, events, c, i, t, id, k);
    assert states[k] == Next(states[k - 1], events[k - 1]) && Enabled(states[k - 1], events[k - 1]);
    if k > c + 1 {
      WaitKeepsId(states, events, c, i, t, id, k - 1);
    }
  }

  lemma StaysRunning(s: System, e: Event, id: Id)
    requires Enabled(s, e) && id in s.shared.sessions
    ensures id in Next(s, e).shared.sessions <==> !EndsWaitFor(s, e, id)
  {
  }

  lemma {:induction false} RunsUndisturbed(states: seq<System>, events: seq<Event>, c: nat, k: nat, id: Id)
    requires IsRun(states, events) && c < k < |events| && id in states[c + 1].shared.sessions
    requires forall j | c < j < k :: !EndsWaitFor(states[j], events[j], id)
    ensures id in states[k].shared.sessions
  {
    if k > c + 1 {
      RunsUndisturbed(states, events, c, k - 1, id);
      StaysRunning(states[k - 1], events[k - 1], id);
    }
  }

  /** The session that a wait removes is the one it found - it was running all the time in between - if and
      only if no other wait for the id ended in between. */
  lemma WaitRemovesItsOwn(states: seq<System>, events: seq<Event>, c: nat, i: nat, t: Task, id: Id)
    requires OneWait(states, events, c, i, t, id)
    ensures EndsWaitFor(states[i], events[i], id)
    ensures (forall k | c < k <= i :: id in states[k].shared.sessions)
            <==> forall j | c < j < i :: !EndsWaitFor(states[j], events[j], id)
  {
    WaitKeepsId(states, events, c, i, t, id, i);
    StaysRunning(states[c], events[c], id);
    assert states[c + 1] == Next(states[c], events[c]);
    if forall j | c < j < i :: !EndsWaitFor(states[j], events[j], id) {
      forall k | c < k <= i ensures id in states[k].shared.sessions {
        RunsUndisturbed(states, events, c, k, id);
      }
    } else {
      var j :| c < j < i && EndsWaitFor(states[j], events[j], id);
      assert states[j + 1] == Next(states[j], events[j]);
      assert id !in states[j + 1].shared.sessions;
    }
  }

  // ----- ports -----

  /** Every port that is attached to an id was attached by a forward for that id. */
  ghost predicate PortsAreForwarded(s: System) {
    && (forall id | id in s.shared.pending && s.shared.pending[id].Some? ::
          Forwarded(id, s.shared.pending[id].value) in s.log)
    && (forall t | t in s.starting && s.starting[t].forward.Some? ::
          Forwarded(s.starting[t].id, s.starting[t].forward.value) in s.log)
    && (forall id | id in s.shared.sessions && s.shared.sessions[id].forward.Some? ::
          Forwarded(id, s.shared.sessions[id].forward.value) in s.log)
  }

  lemma LogKeeps(s: System, e: Event, n: Note)
    requires Enabled(s, e) && n in s.log
    ensures n in Next(s, e).log
  {
  }

  lemma StepForwards(s: System, e: Event)
    requires Enabled(s, e) && PortsAreForwarded(s)
    ensures PortsAreForwarded(Next(s, e))
  {
    forall n | n in s.log ensures n in Next(s, e).log {
      LogKeeps(s, e, n);
    }
  }

  /** The 9P port of a running session is one that a forward attached to its id. */
  lemma {:induction false} EveryPortIsForwarded(states: seq<System>, events: seq<Event>)
    requires IsRun(states, events)
    ensures PortsAreForwarded(states[|events|])
    decreases |events|
  {
    if events != [] {
      var n := |events| - 1;
      EveryPortIsForwarded(states[..n + 1], events[..n]);
      StepForwards(states[n], events[n]);
    }
  }

  // ----- an id that is dialled again -----

  /** Exactly when a start finds its id in use: a session of that id was started and not yet removed. */
  lemma DuplicateExactly(states: seq<System>, events: seq<Event>, i: nat)
    requires IsRun(states, events) && i < |events| && events[i].EndStart?
    requires events[i].task in states[i].starting
    ensures var c := states[i].starting[events[i].task];
            Finish(states[i].shared, c.id, c.forward, events[i].ninep, events[i].launch).1 == Err(DuplicateId)
            <==> Times(states[i], Started(c.id)) == Times(states[i], Removed(c.id)) + 1
  {
    PrefixRun(states, events, i);
    EveryDialIsAccountedFor(states[..i + 1], events[..i], states[i].starting[events[i].task].id);
  }

  /** Exactly when an id is pending and running at once: a dial of it was not taken, and a session of it
      was started and not removed. */
  lemma PendingAndRunningExactly(states: seq<System>, events: seq<Event>, id: Id)
    requires IsRun(states, events)
    ensures var s := states[|events|];
            id in s.shared.pending && id in s.shared.sessions
            <==> && Times(s, Dialed(id)) == Times(s, Taken(id)) + 1
                 && Times(s, Started(id)) == Times(s, Removed(id)) + 1
  {
    EveryDialIsAccountedFor(states, events, id);
  }

  lemma OneStep(states: seq<System>, events: seq<Event>, e: Event) returns (states': seq<System>)
    requires IsRun(states, events) && Enabled(states[|events|], e)
    ensures states' == states + [Next(states[|events|], e)] && IsRun(states', events + [e])
  {
    states' := states + [Next(states[|events|], e)];
    var es := events + [e];
    forall i | 0 <= i < |es| ensures Enabled(states'[i], es[i]) && states'[i + 1] == Next(states'[i], es[i]) {
      assert i < |events| ==> es[i] == events[i] && states'[i] == states[i] && states'[i + 1] == states[i + 1];
    }
  }

  /** Dial and start of an id that is not being started, the start by task 0 and without faults. */
  lemma DialAndStart(states: seq<System>, events: seq<Event>, id: Id)
    returns (states': seq<System>, events': seq<Event>)
    requires IsRun(states, events) && states[|events|].starting == map[]
    requires id !in states[|events|].shared.pending
    ensures var s := states[|events|];
            var ok := id !in s.shared.sessions;
            && IsRun(states', events') && states <= states'
            && events' == events + [CallDial(id), CallStart(0, id), EndStart(0, false, Launched)]
            && states'[|events| + 2].starting == map[0 := Starting(id, None)]
            && states'[|events| + 2].shared == s.shared
            && states'[|events'|].starting == map[]
            && states'[|events'|].waiting == s.waiting
            && states'[|events'|].shared
               == s.shared.(sessions := if ok then s.shared.sessions[id := Session(None)] else s.shared.sessions)
            && states'[|events'|].log == s.log + [Dialed(id), Taken(id), if ok then Started(id) else Failed(id)]
  {
    var s := states[|events|];
    states' := OneStep(states, events, CallDial(id));
    events' := events + [CallDial(id)];
    var s1 := states'[|events'|];
    states' := OneStep(states', events', CallStart(0, id));
    events' := events' + [CallStart(0, id)];
    var s2 := states'[|events'|];
    assert s2.shared.pending == s.shared.pending;
    assert s2.starting == map[0 := Starting(id, None)];
    states' := OneStep(states', events', EndStart(0, false, Launched));
    events' := events' + [EndStart(0, false, Launched)];
    assert states'[|events'|].starting == map[];
  }

  /** Without fresh ids a dial can be lost: a run in which an id is dialled and started, and while it
      runs dialled and started again. The second start fails as a duplicate and leaves nothing pending. */
  lemma ReusedIdIsLost(id: Id) returns (states: seq<System>, events: seq<Event>)
    ensures IsRun(states, events) && |events| == 6
    ensures Finish(states[5].shared, id, None, false, Launched).1 == Err(DuplicateId)
    ensures states[5].starting == map[0 := Starting(id, None)] && events[5] == EndStart(0, false, Launched)
    ensures states[6].log == [Dialed(id), Taken(id), Started(id), Dialed(id), Taken(id), Failed(id)]
    ensures id !in states[6].shared.pending && id in states[6].shared.sessions
  {
    states, events := DialAndStart([INIT], [], id);
    states, events := DialAndStart(states, events, id);
  }

  /** Tasks 0 and 1 wait for the session of an id, and the wait of task 0 ends. */
  lemma TwoWaits(states: seq<System>, events: seq<Event>, id: Id)
    returns (states': seq<System>, events': seq<Event>)
    requires IsRun(states, events) && states[|events|].waiting == map[] && id in states[|events|].shared.sessions
    ensures var s := states[|events|];
            && IsRun(states', events') && states <= states'
            && events' == events + [CallWait(0, id), CallWait(1, id), JoinHandles(0), JoinHandles(1), EndWait(0)]
            && states'[|events| + 4].waiting == map[0 := Waiting(id, true), 1 := Waiting(id, true)]
            && states'[|events'|].waiting == map[1 := Waiting(id, true)]
            && states'[|events'|].starting == s.starting
            && states'[|events'|].shared == Remove(s.shared, id)
            && states'[|events'|].log == s.log + [Nothing, Nothing, Nothing, Nothing, Removed(id)]
  {
    states', events' := FourCalls(states, events, id);
    states' := OneStep(states', events', EndWait(0));
    events' := events' + [EndWait(0)];
    assert states'[|events'|].waiting == map[1 := Waiting(id, true)];
  }

  lemma FourCalls(states: seq<System>, events: seq<Event>, id: Id)
    returns (states': seq<System>, events': seq<Event>)
    requires IsRun(states, events) && states[|events|].waiting == map[] && id in states[|events|].shared.sessions
    ensures var s := states[|events|];
            && IsRun(states', events') && states <= states'
            && events' == events + [CallWait(0, id), CallWait(1, id), JoinHandles(0), JoinHandles(1)]
            && states'[|events'|] == System(s.shared, s.starting, map[0 := Waiting(id, true), 1 := Waiting(id, true)],
                                            s.log + [Nothing, Nothing, Nothing, Nothing])
  {
    var s := states[|events|];
    states' := OneStep(states, events, CallWait(0, id));
    events' := events + [CallWait(0, id)];
    states' := OneStep(states', events', CallWait(1, id));
    events' := events' + [CallWait(1, id)];
    assert states'[|events'|].waiting == map[0 := Waiting(id, false), 1 := Waiting(id, false)];
    states' := OneStep(states', events', JoinHandles(0));
    events' := events' + [JoinHandles(0)];
    states' := OneStep(states', events', JoinHandles(1));
    events' := events' + [JoinHandles(1)];
    assert states'[|events'|].waiting == map[0 := Waiting(id, true), 1 := Waiting(id, true)];
    assert states'[|events'|].log == s.log + [Nothing, Nothing, Nothing, Nothing];
  }

  /** ... and two waits for one id can remove two sessions: the second wait, which found the first session,
      ends when the id was dialled and started again, and takes the new session out of the map. */
  lemma LateWaitRemovesAnother(id: Id) returns (states: seq<System>, events: seq<Event>)
    ensures OneWait(states, events, 4, 11, 1, id) && |events| == 12
    ensures EndsWaitFor(states[7], events[7], id) && events[10] == EndStart(0, false, Launched)
    ensures id in states[11].shared.sessions && id !in states[12].shared.sessions
  {
    states, events := DialAndStart([INIT], [], id);
    states, events := TwoWaits(states, events, id);
    states, events := DialAndStart(states, events, id);
    states := OneStep(states, events, EndWait(1));
    events := events + [EndWait(1)];
  }
}
