// Which pairs of messages may be outstanding together: exactly those that do not conflict. For every
// conflicting pair there is a run, careful in all else, that differs from serial dispatch.
module Races {
  import opened Wrappers
  import opened Protocol
  import opened Dispatch
  import opened DispatchRuns
  import opened Serializable

  /** A message that makes the request `q` may arrive while a request `p` is outstanding; in all else
      the client is careful. */
  ghost predicate CarefulBut(s: State, l: Label, p: Request, q: Request) {
    l.Receive? ==>
      forall i | 0 <= i < |s.tasks| && i < |s.arrivals| && !s.tasks[i].phase.Finished? ::
        !Conflict(s.arrivals[i], RequestOf(l.msg)) || (s.arrivals[i] == p && RequestOf(l.msg) == q)
  }

  ghost predicate CarefulButRun(ls: seq<Label>, fs: Filesystem, p: Request, q: Request)
    requires Run(ls, fs).Some?
  {
    ls == [] ||
    (CarefulButRun(ls[..|ls| - 1], fs, p, q) && CarefulBut(Run(ls[..|ls| - 1], fs).value, ls[|ls| - 1], p, q))
  }

  /** Every run in which `b` may arrive while `a` is outstanding equals serial dispatch. */
  ghost predicate MayOverlap(a: Msg, b: Msg) {
    forall ls: seq<Label>, fs: Filesystem
      | Run(ls, fs).Some? && CarefulButRun(ls, fs, RequestOf(a), RequestOf(b)) ::
        EqualsSerial(Run(ls, fs).value, fs)
  }

  lemma {:induction false} NoConflictIsCareful(ls: seq<Label>, fs: Filesystem, p: Request, q: Request)
    requires Run(ls, fs).Some? && CarefulButRun(ls, fs, p, q) && !Conflict(p, q)
    ensures CarefulRun(ls, fs)
  {
    if ls != [] {
      NoConflictIsCareful(ls[..|ls| - 1], fs, p, q);
    }
  }

  // ----- building a run -----

  /** A run that is careful but for `p` and `q`, and the state it reaches. */
  ghost predicate Reaches(ls: seq<Label>, s: State, fs: Filesystem, p: Request, q: Request) {
    Run(ls, fs) == Some(s) && CarefulButRun(ls, fs, p, q) && |s.tasks| == |s.arrivals|
  }

  lemma Extend(ls: seq<Label>, s: State, l: Label, fs: Filesystem, p: Request, q: Request) returns (ls': seq<Label>)
    requires Reaches(ls, s, fs, p, q) && Enabled(s, l) && CarefulBut(s, l, p, q)
    ensures Reaches(ls', Next(s, l, fs), fs, p, q)
  {
    ls' := ls + [l];
    RunOneMore(ls, l, fs);
    assert ls'[..|ls'| - 1] == ls;
  }

  /** A filesystem that accepts everything. */
  function Willing(i: nat, fids: seq<Fid>): Outcome {
    Replied(Rclunk)
  }

  function Attach(k: u32): Msg {
    Msg(0, Tattach(k, NOFID, [], [], 0))
  }

  lemma LookNothing(t: Table, r: Request)
    requires r.supported && r.lookups == []
    ensures Look(t, r) == Found([])
  {
  }

  lemma ReplaceLast(ts: seq<Task>, x: Task, y: Task)
    ensures (ts + [x])[|ts| := y] == ts + [y]
  {
  }

  /** One attach, from arrival to reply, while nothing else is outstanding. */
  lemma AttachAlone(ls: seq<Label>, s: State, k: u32, p: Request, q: Request) returns (ls': seq<Label>, s': State)
    requires Reaches(ls, s, Willing, p, q) && Quiet(s)
    ensures Reaches(ls', s', Willing, p, q) && Quiet(s')
    ensures s'.arrivals == s.arrivals + [RequestOf(Attach(k))]
    ensures s'.table == s.table[k := Fid(k, |s.arrivals|)]
  {
    var n, idle := |s.tasks|, Task(Pending, Received);
    var r := RequestOf(Attach(k));
    var call := Task(Found([]), Calling);
    var insert := Task(Found([]), Inserting(Rclunk));
    var reply := Task(Found([]), Replying(Rclunk));
    ls' := Extend(ls, s, Receive(Attach(k)), Willing, p, q);
    var s1 := s.(arrivals := s.arrivals + [r], tasks := s.tasks + [idle]);
    LookNothing(s.table, r);
    ReplaceLast(s.tasks, idle, call);
    ls' := Extend(ls', s1, Lookup(n), Willing, p, q);
    var s2 := s1.(tasks := s.tasks + [call]);
    ReplaceLast(s.tasks, call, insert);
    ls' := Extend(ls', s2, Return(n), Willing, p, q);
    var s3 := s2.(tasks := s.tasks + [insert]);
    ReplaceLast(s.tasks, insert, reply);
    ls' := Extend(ls', s3, Insert(n), Willing, p, q);
    var s4 := Next(s3, Insert(n), Willing);
    ReplaceLast(s.tasks, reply, Task(Found([]), Finished(Rclunk)));
    ls' := Extend(ls', s4, Reply(n), Willing, p, q);
    s' := Next(s4, Reply(n), Willing);
  }

  /** A quiet state whose table is the serial one, and whose fids were bound by earlier requests. */
  ghost predicate Settled(s: State) {
    && |s.tasks| == |s.arrivals| && Quiet(s)
    && s.table == SerialTable(s.arrivals, Willing)
    && forall k | k in s.table :: s.table[k].owner < |s.arrivals|
  }

  lemma AttachSettles(s: State, s': State, k: u32)
    requires Settled(s) && Quiet(s') && |s'.tasks| == |s'.arrivals|
    requires s'.arrivals == s.arrivals + [RequestOf(Attach(k))]
    requires s'.table == s.table[k := Fid(k, |s.arrivals|)]
    ensures Settled(s')
  {
    var r := RequestOf(Attach(k));
    assert s'.arrivals[..|s.arrivals|] == s.arrivals;
    LookNothing(s.table, r);
    assert Serve(s.table, |s.arrivals|, r, Willing).table == s'.table;
  }

  lemma Nothing(p: Request, q: Request) returns (ls: seq<Label>, s: State)
    ensures Reaches(ls, s, Willing, p, q) && Settled(s)
  {
    ls, s := [], Init;
  }

  lemma {:induction false} BindAll(ks: seq<u32>, p: Request, q: Request) returns (ls: seq<Label>, s: State)
    ensures Reaches(ls, s, Willing, p, q) && Settled(s)
    ensures forall k | k in ks :: k in s.table
  {
    if ks == [] {
      ls, s := Nothing(p, q);
    } else {
      var last := ks[|ks| - 1];
      var ls0, s0 := BindAll(ks[..|ks| - 1], p, q);
      ls, s := AttachAlone(ls0, s0, last, p, q);
      AttachSettles(s0, s, last);
      assert ks == ks[..|ks| - 1] + [last];
    }
  }

  // ----- two messages at once -----

  /** A settled state, and two tasks for `p` and `q` after it. */
  function Pair(s: State, p: Request, q: Request, x: Task, y: Task, t: Table, es: seq<Event>): State {
    State(t, s.arrivals + [p, q], s.tasks + [x, y], es)
  }

  lemma MoveFirst(ts: seq<Task>, x: Task, y: Task, z: Task)
    ensures (ts + [x, y])[|ts| := z] == ts + [z, y]
  {
  }

  lemma MoveSecond(ts: seq<Task>, x: Task, y: Task, z: Task)
    ensures (ts + [x, y])[|ts| + 1 := z] == ts + [x, z]
  {
  }

  const IDLE := Task(Pending, Received)

  lemma TwoArrive(ls: seq<Label>, s: State, a: Msg, b: Msg) returns (ls': seq<Label>)
    requires Reaches(ls, s, Willing, RequestOf(a), RequestOf(b)) && Quiet(s)
    ensures var p, q := RequestOf(a), RequestOf(b);
            Reaches(ls', Pair(s, p, q, IDLE, IDLE, s.table, s.events), Willing, p, q)
  {
    var p, q := RequestOf(a), RequestOf(b);
    ls' := Extend(ls, s, Receive(a), Willing, p, q);
    var s1 := Next(s, Receive(a), Willing);
    assert s1.arrivals == s.arrivals + [p] && s1.tasks == s.tasks + [IDLE];
    ls' := Extend(ls', s1, Receive(b), Willing, p, q);
    assert s.arrivals + [p] + [q] == s.arrivals + [p, q];
    assert s.tasks + [IDLE] + [IDLE] == s.tasks + [IDLE, IDLE];
  }

  /** All lookups of a request are bound. */
  ghost predicate Bound(t: Table, r: Request) {
    r.supported && forall k | k in r.lookups :: k in t
  }

  lemma BoundIsFound(t: Table, i: nat, r: Request)
    requires Bound(t, r)
    ensures Look(t, r).Found?
    ensures Serve(t, i, r, Willing) == Served(Look(t, r), Replied(Rclunk), Update(t, i, r))
  {
  }

  /** Serial dispatch of the two. */
  lemma SerialPair(s: State, p: Request, q: Request)
    requires Settled(s) && Bound(s.table, p)
    ensures var n, rs, t := |s.arrivals|, s.arrivals + [p, q], Update(s.table, |s.arrivals|, p);
            && SerialServed(rs, n, Willing).looked == Look(s.table, p)
            && SerialServed(rs, n + 1, Willing) == Serve(t, n + 1, q, Willing)
            && SerialTable(rs, Willing) == Serve(t, n + 1, q, Willing).table
  {
    var n, rs := |s.arrivals|, s.arrivals + [p, q];
    BoundIsFound(s.table, n, p);
    assert rs[..n] == s.arrivals;
    SerialNext(rs, n, Willing);
    SerialNext(rs, n + 1, Willing);
    assert rs[..n + 2] == rs;
  }

  /** A request that changes a fid changes what lookups of it find. */
  lemma LookupsDiffer(t: Table, i: nat, changer: Request, reader: Request, f: u32)
    requires Bound(t, reader) && f in reader.lookups && f in Writes(changer) && t[f].owner != i
    ensures Look(t, reader) != Look(Update(t, i, changer), reader)
  {
    var j :| 0 <= j < |reader.lookups| && reader.lookups[j] == f;
    var u := Update(t, i, changer);
    BoundIsFound(t, i, reader);
    assert Look(t, reader).fids[j] == t[f];
    if Look(u, reader).Found? {
      assert Look(u, reader).fids[j] == u[f];
    }
  }

  /** `q` looks up before `p` changes a fid that `q` looks up. */
  lemma LookupRace(ls: seq<Label>, s: State, p: Request, q: Request, f: u32) returns (ls': seq<Label>, s': State)
    requires Settled(s) && Reaches(ls, Pair(s, p, q, IDLE, IDLE, s.table, s.events), Willing, p, q)
    requires Bound(s.table, p) && Bound(s.table, q)
    requires f in Writes(p) && f in q.lookups
    ensures Reaches(ls', s', Willing, p, q) && !EqualsSerial(s', Willing)
  {
    var n := |s.arrivals|;
    var s1 := Pair(s, p, q, IDLE, IDLE, s.table, s.events);
    ls' := Extend(ls, s1, Lookup(n + 1), Willing, p, q);
    s' := Next(s1, Lookup(n + 1), Willing);
    assert s'.tasks[n + 1].looked == Look(s.table, q);
    SerialPair(s, p, q);
    LookupsDiffer(s.table, n, p, q, f);
    BoundIsFound(s.table, n, q);
    assert !LookedInTurn(s', n + 1, Willing);
  }

  /** The phase in which a request waits for its table change. */
  function Waiting(r: Request): Task {
    if r.change.Drop? then Task(Pending, Removing(Rclunk)) else Task(Pending, Inserting(Rclunk))
  }

  /** From its arrival to the point where the second request waits for its table change. */
  lemma SecondCalls(ls: seq<Label>, s: State, x: Task, p: Request, q: Request) returns (ls': seq<Label>)
    requires Settled(s) && !q.change.NoChange? && Bound(s.table, q) && !x.phase.Calling?
    requires Reaches(ls, Pair(s, p, q, x, IDLE, s.table, s.events), Willing, p, q)
    ensures var y := Waiting(q).(looked := Look(s.table, q));
            Reaches(ls', Pair(s, p, q, x, y, s.table, s.events), Willing, p, q)
  {
    var n, looked := |s.tasks|, Look(s.table, q);
    var call, y := Task(looked, Calling), Waiting(q).(looked := looked);
    BoundIsFound(s.table, n, q);
    var s1 := Pair(s, p, q, x, IDLE, s.table, s.events);
    MoveSecond(s.tasks, x, IDLE, call);
    ls' := Extend(ls, s1, Lookup(n + 1), Willing, p, q);
    MoveSecond(s.tasks, x, call, y);
    ls' := Extend(ls', Pair(s, p, q, x, call, s.table, s.events), Return(n + 1), Willing, p, q);
  }

  function ChangeLabel(r: Request, i: nat): Label {
    if r.change.Drop? then Remove(i) else Insert(i)
  }

  lemma SecondChanges(ls: seq<Label>, s: State, x: Task, y: Task, p: Request, q: Request) returns (ls': seq<Label>)
    requires Settled(s) && !q.change.NoChange? && y.phase == Waiting(q).phase && !x.phase.Calling?
    requires Reaches(ls, Pair(s, p, q, x, y, s.table, s.events), Willing, p, q)
    ensures var n := |s.tasks|;
            Reaches(ls', Pair(s, p, q, x, y.(phase := Replying(Rclunk)), Update(s.table, n + 1, q),
                              s.events + [Changed(n + 1, q.change.fid)]), Willing, p, q)
  {
    var n := |s.tasks|;
    MoveSecond(s.tasks, x, y, y.(phase := Replying(Rclunk)));
    ls' := Extend(ls, Pair(s, p, q, x, y, s.table, s.events), ChangeLabel(q, n + 1), Willing, p, q);
  }

  /** `q` changes a fid before `p`, which arrived first, looks it up. */
  lemma LateLookupRace(ls: seq<Label>, s: State, p: Request, q: Request, f: u32) returns (ls': seq<Label>, s': State)
    requires Settled(s) && Reaches(ls, Pair(s, p, q, IDLE, IDLE, s.table, s.events), Willing, p, q)
    requires Bound(s.table, p) && Bound(s.table, q)
    requires f in Writes(q) && f in p.lookups
    ensures Reaches(ls', s', Willing, p, q) && !EqualsSerial(s', Willing)
  {
    var n := |s.arrivals|;
    var y := Waiting(q).(looked := Look(s.table, q));
    ls' := SecondCalls(ls, s, IDLE, p, q);
    ls' := SecondChanges(ls', s, IDLE, y, p, q);
    var t := Update(s.table, n + 1, q);
    var s1 := Pair(s, p, q, IDLE, y.(phase := Replying(Rclunk)), t, s.events + [Changed(n + 1, q.change.fid)]);
    ls' := Extend(ls', s1, Lookup(n), Willing, p, q);
    s' := Next(s1, Lookup(n), Willing);
    assert s'.tasks[n].looked == Look(t, p);
    SerialPair(s, p, q);
    LookupsDiffer(s.table, n + 1, q, p, f);
    assert !LookedInTurn(s', n, Willing);
  }

  /** Both change the same fid, and `q` first. */
  lemma ChangeRace(ls: seq<Label>, s: State, p: Request, q: Request, f: u32) returns (ls': seq<Label>, s': State)
    requires Settled(s) && Reaches(ls, Pair(s, p, q, IDLE, IDLE, s.table, s.events), Willing, p, q)
    requires Bound(s.table, p) && Bound(s.table, q)
    requires f in Writes(p) && f in Writes(q) && q.change.Bind? && f !in q.lookups
    ensures Reaches(ls', s', Willing, p, q) && !EqualsSerial(s', Willing)
  {
    var n := |s.arrivals|;
    var x, y := Waiting(p).(looked := Look(s.table, p)), Waiting(q).(looked := Look(s.table, q));
    ls' := FirstCalls(ls, s, p, q);
    ls' := SecondCalls(ls', s, x, p, q);
    ls' := SecondChanges(ls', s, x, y, p, q);
    var es := s.events + [Changed(n + 1, q.change.fid)];
    ls', s' := FirstChangesLast(ls', s, x, y.(phase := Replying(Rclunk)), p, q, es);
    SerialPair(s, p, q);
    assert forall k | k in q.lookups :: k in Update(s.table, n, p);
    BoundIsFound(Update(s.table, n, p), n + 1, q);
    ChangesDiffer(s.table, n, p, q, f);
    assert s'.table != SerialTable(s'.arrivals, Willing);
  }

  lemma FirstChangesLast(ls: seq<Label>, s: State, x: Task, y: Task, p: Request, q: Request, es: seq<Event>)
    returns (ls': seq<Label>, s': State)
    requires Settled(s) && !p.change.NoChange? && x.phase == Waiting(p).phase && y.phase.Replying?
    requires Reaches(ls, Pair(s, p, q, x, y, Update(s.table, |s.tasks| + 1, q), es), Willing, p, q)
    ensures Reaches(ls', s', Willing, p, q) && s'.arrivals == s.arrivals + [p, q]
    ensures s'.table == Update(Update(s.table, |s.tasks| + 1, q), |s.tasks|, p)
    ensures forall i | 0 <= i < |s'.tasks| :: !Open(s'.tasks[i].phase)
  {
    var n := |s.tasks|;
    var s1 := Pair(s, p, q, x, y, Update(s.table, n + 1, q), es);
    MoveFirst(s.tasks, x, y, x.(phase := Replying(Rclunk)));
    ls' := Extend(ls, s1, ChangeLabel(p, n), Willing, p, q);
    s' := Next(s1, ChangeLabel(p, n), Willing);
    assert s'.tasks == s.tasks + [x.(phase := Replying(Rclunk)), y];
  }

  lemma FirstCalls(ls: seq<Label>, s: State, p: Request, q: Request) returns (ls': seq<Label>)
    requires Settled(s) && !p.change.NoChange? && Bound(s.table, p)
    requires Reaches(ls, Pair(s, p, q, IDLE, IDLE, s.table, s.events), Willing, p, q)
    ensures var x := Waiting(p).(looked := Look(s.table, p));
            Reaches(ls', Pair(s, p, q, x, IDLE, s.table, s.events), Willing, p, q)
  {
    var n, looked := |s.tasks|, Look(s.table, p);
    var call, x := Task(looked, Calling), Waiting(p).(looked := looked);
    BoundIsFound(s.table, n, p);
    MoveFirst(s.tasks, IDLE, IDLE, call);
    ls' := Extend(ls, Pair(s, p, q, IDLE, IDLE, s.table, s.events), Lookup(n), Willing, p, q);
    MoveFirst(s.tasks, call, IDLE, x);
    ls' := Extend(ls', Pair(s, p, q, call, IDLE, s.table, s.events), Return(n), Willing, p, q);
  }

  /** Two changes of one fid, of which the second in serial order binds it, leave different entries in
      the two orders. */
  lemma ChangesDiffer(t: Table, n: nat, p: Request, q: Request, f: u32)
    requires f in Writes(p) && f in Writes(q) && q.change.Bind?
    ensures Update(Update(t, n, p), n + 1, q) != Update(Update(t, n + 1, q), n, p)
  {
    assert Get(Update(Update(t, n, p), n + 1, q), f) == Some(Fid(f, n + 1));
    assert Get(Update(Update(t, n + 1, q), n, p), f) != Some(Fid(f, n + 1));
  }

  // ----- the exact condition -----

  /** A request that looks a fid up or changes one is supported, and one that drops a fid looks it up. */
  lemma RequestShape(m: Msg)
    ensures var r := RequestOf(m);
            && (r.lookups != [] || !r.change.NoChange? ==> r.supported)
            && (r.change.Drop? ==> r.change.fid in r.lookups)
  {
    if m.body.Tclunk? {
      assert Lookups(m.body)[0] == m.body.fid;
    }
  }

  /** For every pair that conflicts there is a run that differs from serial dispatch. */
  lemma ConflictsRace(a: Msg, b: Msg) returns (ls: seq<Label>, s: State)
    requires Conflict(RequestOf(a), RequestOf(b))
    ensures Reaches(ls, s, Willing, RequestOf(a), RequestOf(b)) && !EqualsSerial(s, Willing)
  {
    var p, q := RequestOf(a), RequestOf(b);
    RequestShape(a);
    RequestShape(b);
    var ls0, s0 := BindAll(p.lookups + q.lookups, p, q);
    assert forall k | k in p.lookups :: k in p.lookups + q.lookups;
    assert forall k | k in q.lookups :: k in p.lookups + q.lookups;
    ls0 := TwoArrive(ls0, s0, a, b);
    if f :| f in Writes(p) && f in Touches(q) {
      if f in q.lookups {
        ls, s := LookupRace(ls0, s0, p, q, f);
      } else {
        ls, s := ChangeRace(ls0, s0, p, q, f);
      }
    } else {
      var f :| f in Writes(q) * Touches(p);
      ls, s := LateLookupRace(ls0, s0, p, q, f);
    }
  }

  /** Two messages may be outstanding together, whatever the filesystem answers and however the tasks
      are scheduled, if and only if they do not conflict: neither changes a fid that the other touches. */
  lemma OverlapExactly(a: Msg, b: Msg)
    ensures MayOverlap(a, b) <==> !Conflict(RequestOf(a), RequestOf(b))
  {
    var p, q := RequestOf(a), RequestOf(b);
    if Conflict(p, q) {
      var ls, s := ConflictsRace(a, b);
      assert Run(ls, Willing).Some? && CarefulButRun(ls, Willing, p, q);
      assert !EqualsSerial(Run(ls, Willing).value, Willing);
    } else {
      forall ls: seq<Label>, fs: Filesystem | Run(ls, fs).Some? && CarefulButRun(ls, fs, p, q)
        ensures EqualsSerial(Run(ls, fs).value, fs)
      {
        NoConflictIsCareful(ls, fs, p, q);
        Serializability(ls, fs);
      }
    }
  }
}
