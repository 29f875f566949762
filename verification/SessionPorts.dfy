// Which port a session is started with (server.rs): the one that the last forward attached to its id
// between the dial and the start, or none.
module SessionPorts {
  import opened Wrappers
  import opened Sessions

  /** The port of the last forward since the last dial of the id. */
  function LastPort(log: seq<Note>, id: Id): Option<Port> {
    if log == [] then None
    else
      match log[|log| - 1]
      case Dialed(i) => if i == id then None else LastPort(log[..|log| - 1], id)
      case Forwarded(i, port) => if i == id then Some(port) else LastPort(log[..|log| - 1], id)
      case _ => LastPort(log[..|log| - 1], id)
  }

  lemma LastPortSnoc(log: seq<Note>, n: Note, id: Id)
    ensures LastPort(log + [n], id) == match n
                                       case Dialed(i) => if i == id then None else LastPort(log, id)
                                       case Forwarded(i, port) => if i == id then Some(port) else LastPort(log, id)
                                       case _ => LastPort(log, id)
  {
    assert (log + [n])[..|log|] == log;
  }

  ghost predicate PendingPort(s: System, id: Id) {
    id in s.shared.pending ==> s.shared.pending[id] == LastPort(s.log, id)
  }

  lemma StepPort(s: System, e: Event, id: Id)
    requires Enabled(s, e) && PendingPort(s, id)
    ensures PendingPort(Next(s, e), id)
  {
    var s' := Next(s, e);
    var n := s'.log[|s.log|];
    assert s'.log == s.log + [n];
    LastPortSnoc(s.log, n, id);
  }

  /** In every run a pending session has the port that was attached to it last. */
  lemma {:induction false} PendingPorts(states: seq<System>, events: seq<Event>, id: Id)
    requires IsRun(states, events)
    ensures PendingPort(states[|events|], id)
    decreases |events|
  {
    if events != [] {
      var n := |events| - 1;
      PendingPorts(states[..n + 1], events[..n], id);
      StepPort(states[n], events[n], id);
    }
  }

  /** One call of `start`: task `t` takes the pending session of `id` at `c` and ends at `i`. */
  ghost predicate OneStart(states: seq<System>, events: seq<Event>, c: nat, i: nat, t: Task, id: Id) {
    && IsRun(states, events) && c < i < |events|
    && events[c] == CallStart(t, id) && id in states[c].shared.pending
    && events[i].EndStart? && events[i].task == t
    && forall k | c < k < i :: !(events[k].EndStart? && events[k].task == t)
  }

  lemma {:induction false} StartHolds(states: seq<System>, events: seq<Event>, c: nat, i: nat, t: Task, id: Id, k: nat)
    requires OneStart(states, events, c, i, t, id) && c < k <= i
    ensures t in states[k].starting && states[k].starting[t] == Starting(id, states[c].shared.pending[id])
  {
    assert states[k] == Next(states[k - 1], events[k - 1]) && Enabled(states[k - 1], events[k - 1]);
    if k > c + 1 {
      StartHolds(states, events, c, i, t, id, k - 1);
    }
  }

  /** In every run a start that succeeds runs the session with the port that was attached last before the
      start took it, and one that needs a port succeeds only with one. */
  lemma StartsWithLastPort(states: seq<System>, events: seq<Event>, c: nat, i: nat, t: Task, id: Id)
    requires OneStart(states, events, c, i, t, id)
    ensures var port := LastPort(states[c].log, id);
            var ok := && id !in states[i].shared.sessions && events[i].launch == Launched
                      && !(events[i].ninep && port == None);
            && (ok ==> id in states[i + 1].shared.sessions && states[i + 1].shared.sessions[id].forward == port)
            && (!ok ==> states[i + 1].shared.sessions == states[i].shared.sessions)
            && id !in states[c + 1].shared.pending
  {
    PrefixRun(states, events, c);
    PendingPorts(states[..c + 1], events[..c], id);
    StartHolds(states, events, c, i, t, id, i);
    assert states[i + 1] == Next(states[i], events[i]);
    assert states[c + 1] == Next(states[c], events[c]);
  }

  /** What a dial and a forward do: a dial makes a session pending without a port unless one is pending, and
      a forward gives a pending session its port. */
  lemma DialAndForward(s: System, id: Id, port: Port)
    ensures var d := Next(s, CallDial(id));
            && d.shared.sessions == s.shared.sessions
            && d.shared.pending == (if id in s.shared.pending then s.shared.pending else s.shared.pending[id := None])
    ensures var f := Next(s, CallForward(id, port));
            && f.shared.sessions == s.shared.sessions
            && f.shared.pending
               == (if id in s.shared.pending then s.shared.pending[id := Some(port)] else s.shared.pending)
  {
  }
}
