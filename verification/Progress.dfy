// No schedule of the request tasks gets stuck: every run can be carried on until all requests are
// finished.
module Progress {
  import opened Wrappers
  import opened Dispatch
  import opened DispatchRuns

  function Weight(p: Phase): nat {
    match p
    case Received => 4
    case Calling => 3
    case Removing(_) => 2
    case Inserting(_) => 2
    case Replying(_) => 1
    case Finished(_) => 0
  }

  function Work(ts: seq<Task>): nat {
    if ts == [] then 0 else Work(ts[..|ts| - 1]) + Weight(ts[|ts| - 1].phase)
  }

  lemma {:induction false} WorkAfterMove(ts: seq<Task>, i: nat, t: Task)
    requires i < |ts|
    ensures Work(ts[i := t]) + Weight(ts[i].phase) == Work(ts) + Weight(t.phase)
  {
    var n := |ts| - 1;
    if i < n {
      assert ts[i := t][..n] == ts[..n][i := t];
      WorkAfterMove(ts[..n], i, t);
    } else {
      assert ts[i := t][..n] == ts[..n];
    }
  }

  /** While a request is outstanding some step other than a new message is enabled, and it leaves
      less work. */
  lemma SomeStepIsEnabled(s: State, fs: Filesystem) returns (l: Label)
    requires TasksOk(s, fs) && !Quiet(s)
    ensures Enabled(s, l) && !l.Receive?
    ensures Work(Next(s, l, fs).tasks) < Work(s.tasks)
  {
    if Reading(s) {
      var i :| 0 <= i < |s.tasks| && s.tasks[i].phase.Calling?;
      l := Return(i);
    } else {
      var i :| 0 <= i < |s.tasks| && !s.tasks[i].phase.Finished?;
      var p := s.tasks[i].phase;
      l := if p.Received? then Lookup(i) else if p.Removing? then Remove(i)
           else if p.Inserting? then Insert(i) else Reply(i);
    }
    assert TaskOk(s, l.i, fs);
    var t := Next(s, l, fs).tasks[l.i];
    WorkAfterMove(s.tasks, l.i, t);
    assert Next(s, l, fs).tasks == s.tasks[l.i := t];
  }

  /** Every such step is progress, so any run can be carried on until all its requests are
      finished: no schedule of lookups, calls and table changes deadlocks on the lock. */
  lemma {:induction false} RunsCanFinish(ls: seq<Label>, s: State, fs: Filesystem)
    returns (more: seq<Label>, s': State)
    requires Run(ls, fs) == Some(s)
    ensures Run(ls + more, fs) == Some(s')
    ensures s'.arrivals == s.arrivals && Quiet(s')
    decreases Work(s.tasks)
  {
    assert TasksOk(s, fs) by {
      RunsKeepTasks(ls, fs);
    }
    if Quiet(s) {
      more, s' := [], s;
      assert ls + [] == ls;
    } else {
      var l := SomeStepIsEnabled(s, fs);
      RunOneMore(ls, l, fs);
      var next := Next(s, l, fs);
      assert next.arrivals == s.arrivals;
      var rest, last := RunsCanFinish(ls + [l], next, fs);
      more, s' := [l] + rest, last;
      Regroup(ls, [l], rest);
    }
  }

  lemma Regroup<T>(a: seq<T>, b: seq<T>, c: seq<T>)
    ensures a + (b + c) == (a + b) + c
  {
  }
}
