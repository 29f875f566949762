// Which requests change the fid table, in every interleaving of their tasks.
module TableChanges {
  import opened Wrappers
  import opened Protocol
  import opened Dispatch
  import opened DispatchRuns

  // ----- requests that end in an error -----

  lemma {:induction false} OfHas(es: seq<Event>, k: nat)
    requires k < |es|
    ensures es[k] in Of(es, es[k].task)
  {
    if k < |es| - 1 {
      OfHas(es[..|es| - 1], k);
    }
  }

  /** A request answered by an error of dispatch or of the filesystem has changed no fid entry. */
  lemma ErrorsChangeNothing(ls: seq<Label>, fs: Filesystem, i: nat, fid: u32)
    requires Run(ls, fs).Some?
    requires i < |Run(ls, fs).value.tasks|
    requires var looked := Run(ls, fs).value.tasks[i].looked;
             looked.Pending? || Answer(looked, i, fs).Failed?
    ensures Changed(i, fid) !in Run(ls, fs).value.events
  {
    var s := Run(ls, fs).value;
    EveryRequestInOrder(ls, fs);
    assert Of(s.events, i) == Made(s, i, fs);
    if Changed(i, fid) in s.events {
      var k :| 0 <= k < |s.events| && s.events[k] == Changed(i, fid);
      OfHas(s.events, k);
      assert false;
    }
  }

  lemma {:induction false} OfIsPart(es: seq<Event>, i: nat, e: Event)
    requires e in Of(es, i)
    ensures e in es
  {
    var n := |es| - 1;
    if e in Of(es[..n], i) {
      OfIsPart(es[..n], i, e);
    }
  }

  /** What is in the log of a request that was answered: its change, if it made one, and its reply. */
  lemma AnsweredEvents(ls: seq<Label>, fs: Filesystem, i: nat, reply: Msg)
    requires Run(ls, fs).Some? && i < |Run(ls, fs).value.tasks|
    requires Sent(i, reply) in Run(ls, fs).value.events
    ensures var s := Run(ls, fs).value;
            && |s.tasks| == |s.arrivals| && !s.tasks[i].looked.Pending?
            && reply == Msg(s.arrivals[i].tag, ReplyBody(Answer(s.tasks[i].looked, i, fs)))
            && forall fid :: Changed(i, fid) in s.events
                 <==> Changed(i, fid) in ChangeOf(i, s.arrivals[i], Answer(s.tasks[i].looked, i, fs))
  {
    var s := Run(ls, fs).value;
    EveryRequestInOrder(ls, fs);
    assert TaskOk(s, i, fs) && Of(s.events, i) == Made(s, i, fs);
    var k :| 0 <= k < |s.events| && s.events[k] == Sent(i, reply);
    OfHas(s.events, k);
    var change := ChangeOf(i, s.arrivals[i], Answer(s.tasks[i].looked, i, fs));
    forall fid ensures Changed(i, fid) in s.events <==> Changed(i, fid) in change {
      if Changed(i, fid) in s.events {
        var j :| 0 <= j < |s.events| && s.events[j] == Changed(i, fid);
        OfHas(s.events, j);
      }
      if Changed(i, fid) in change {
        assert Changed(i, fid) in Made(s, i, fs);
        OfIsPart(s.events, i, Changed(i, fid));
      }
    }
  }

  /** A request to which an Rlerror was sent has changed no entry, if and only if it is none that changes
      one or the filesystem did not itself return that Rlerror as a success. */
  lemma ErrorRepliesChangeNothing(ls: seq<Label>, fs: Filesystem, i: nat, reply: Msg)
    requires Run(ls, fs).Some? && i < |Run(ls, fs).value.tasks|
    requires Sent(i, reply) in Run(ls, fs).value.events && reply.body.Rlerror?
    ensures var s := Run(ls, fs).value;
            && i < |s.arrivals|
            && ((forall fid :: Changed(i, fid) !in s.events)
                <==> || s.arrivals[i].change.NoChange?
                     || !(s.tasks[i].looked.Found? && fs(i, s.tasks[i].looked.fids) == Replied(reply.body)))
  {
    var s := Run(ls, fs).value;
    AnsweredEvents(ls, fs, i, reply);
    var o := Answer(s.tasks[i].looked, i, fs);
    if o.Replied? && !s.arrivals[i].change.NoChange? {
      assert Changed(i, s.arrivals[i].change.fid) in ChangeOf(i, s.arrivals[i], o);
    }
  }

  /** A filesystem that answers every request with an Rlerror, as a success. */
  function Grudging(i: nat, fids: seq<Fid>): Outcome {
    Replied(Rlerror(5))
  }

  lemma Then(ls: seq<Label>, l: Label, fs: Filesystem, s: State) returns (ls': seq<Label>)
    requires Run(ls, fs).Some? && Enabled(Run(ls, fs).value, l) && Next(Run(ls, fs).value, l, fs) == s
    ensures Run(ls', fs) == Some(s)
  {
    ls' := ls + [l];
    RunOneMore(ls, l, fs);
  }

  /** A request that only binds `f` and has arrived first, after its lookups and after the call. */
  lemma BindReturns(ls: seq<Label>, r: Request, f: u32) returns (ls': seq<Label>)
    requires r.supported && r.lookups == [] && r.change == Bind(f)
    requires Run(ls, Grudging) == Some(State(map[], [r], [Task(Pending, Received)], []))
    ensures Run(ls', Grudging) == Some(State(map[], [r], [Task(Found([]), Inserting(Rlerror(5)))], []))
  {
    assert Look(map[], r) == Found([]);
    ls' := Then(ls, Lookup(0), Grudging, State(map[], [r], [Task(Found([]), Calling)], []));
    ls' := Then(ls', Return(0), Grudging, State(map[], [r], [Task(Found([]), Inserting(Rlerror(5)))], []));
  }

  lemma BindInserts(ls: seq<Label>, r: Request, f: u32) returns (ls': seq<Label>)
    requires r.change == Bind(f)
    requires Run(ls, Grudging) == Some(State(map[], [r], [Task(Found([]), Inserting(Rlerror(5)))], []))
    ensures Run(ls', Grudging)
         == Some(State(map[f := Fid(f, 0)], [r], [Task(Found([]), Replying(Rlerror(5)))], [Changed(0, f)]))
  {
    var x, y := Task(Found([]), Inserting(Rlerror(5))), Task(Found([]), Replying(Rlerror(5)));
    assert [x][0 := y] == [y] && [] + [Changed(0, f)] == [Changed(0, f)];
    ls' := Then(ls, Insert(0), Grudging, State(map[f := Fid(f, 0)], [r], [y], [Changed(0, f)]));
  }

  lemma BindReplies(ls: seq<Label>, r: Request, f: u32, t: Table) returns (ls': seq<Label>)
    requires Run(ls, Grudging) == Some(State(t, [r], [Task(Found([]), Replying(Rlerror(5)))], [Changed(0, f)]))
    ensures Run(ls', Grudging) == Some(State(t, [r], [Task(Found([]), Finished(Rlerror(5)))],
                                             [Changed(0, f), Sent(0, Msg(r.tag, Rlerror(5)))]))
  {
    var x, y := Task(Found([]), Replying(Rlerror(5))), Task(Found([]), Finished(Rlerror(5)));
    var sent := Sent(0, Msg(r.tag, Rlerror(5)));
    assert [x][0 := y] == [y] && [Changed(0, f)] + [sent] == [Changed(0, f), sent];
    ls' := Then(ls, Reply(0), Grudging, State(t, [r], [y], [Changed(0, f), sent]));
  }

  /** There is such a request: an attach that is answered like that binds its fid and then sends the error. */
  lemma ErrorReplyAfterBind(m: Msg) returns (ls: seq<Label>)
    requires m.body.Tattach?
    ensures Run(ls, Grudging).Some?
    ensures var s := Run(ls, Grudging).value;
            && s.events == [Changed(0, m.body.fid), Sent(0, Msg(m.tag, Rlerror(5)))]
            && m.body.fid in s.table
  {
    ls := Then([], Receive(m), Grudging, State(map[], [RequestOf(m)], [Task(Pending, Received)], []));
    ls := BindReturns(ls, RequestOf(m), m.body.fid);
    ls := BindInserts(ls, RequestOf(m), m.body.fid);
    ls := BindReplies(ls, RequestOf(m), m.body.fid, map[m.body.fid := Fid(m.body.fid, 0)]);
  }

  // ----- the messages that change an entry -----

  /** The messages that drop the fid `f` or name it as their new fid. */
  predicate MayChange(m: Fcall, f: u32) {
    match m
    case Tclunk(fid) => fid == f
    case Tauth(afid, _, _, _) => afid == f
    case Tattach(fid, _, _, _, _) => fid == f
    case Twalk(_, newfid, _) => newfid == f
    case Txattrwalk(_, newfid, _) => newfid == f
    case _ => false
  }

  /** The messages of a schedule, in the order in which they arrive. */
  function Messages(ls: seq<Label>): seq<Msg> {
    if ls == [] then []
    else
      var n := |ls| - 1;
      Messages(ls[..n]) + (if ls[n].Receive? then [ls[n].msg] else [])
  }

  lemma {:induction false} ArrivalsAreMessages(ls: seq<Label>, fs: Filesystem)
    requires Run(ls, fs).Some?
    ensures var rs := Run(ls, fs).value.arrivals;
            |rs| == |Messages(ls)| && forall i | 0 <= i < |rs| :: rs[i] == RequestOf(Messages(ls)[i])
  {
    if ls != [] {
      ArrivalsAreMessages(ls[..|ls| - 1], fs);
    }
  }

  /** A step that changes the entry of `f` logs that it did, for a request that writes it. */
  lemma StepWrites(s: State, l: Label, fs: Filesystem, f: u32)
    requires Enabled(s, l)
    ensures s.events <= Next(s, l, fs).events
    ensures Get(Next(s, l, fs).table, f) != Get(s.table, f) ==>
              && (l.Remove? || l.Insert?) && f in Writes(s.arrivals[l.i])
              && Changed(l.i, f) in Next(s, l, fs).events[|s.events|..]
  {
    var s' := Next(s, l, fs);
    if Get(s'.table, f) != Get(s.table, f) {
      assert s'.events[|s.events|..] == [Changed(l.i, s.arrivals[l.i].change.fid)];
    }
  }

  /** Some task changed the entry of `f` after the first `n` events, for a message that may do so. */
  ghost predicate Written(ls: seq<Label>, es: seq<Event>, n: nat, f: u32)
    requires n <= |es|
  {
    exists i | 0 <= i < |Messages(ls)| :: Changed(i, f) in es[n..] && MayChange(Messages(ls)[i].body, f)
  }

  lemma WrittenLater(ls: seq<Label>, l: Label, es: seq<Event>, es': seq<Event>, n: nat, f: u32)
    requires n <= |es| && es <= es' && Written(ls, es, n, f)
    ensures Written(ls + [l], es', n, f)
  {
    var i :| 0 <= i < |Messages(ls)| && Changed(i, f) in es[n..] && MayChange(Messages(ls)[i].body, f);
    assert (ls + [l])[..|ls|] == ls;
    var k :| 0 <= k < |es[n..]| && es[n..][k] == Changed(i, f);
    assert es'[n..][k] == es'[n + k] == es[n + k];
    assert Messages(ls + [l])[i] == Messages(ls)[i];
  }

  lemma WrittenNow(ls: seq<Label>, fs: Filesystem, l: Label, n: nat, f: u32)
    requires Run(ls, fs).Some? && Enabled(Run(ls, fs).value, l) && n <= |Run(ls, fs).value.events|
    requires var s := Run(ls, fs).value;
             Get(Next(s, l, fs).table, f) != Get(s.table, f)
    ensures n <= |Next(Run(ls, fs).value, l, fs).events|
    ensures Written(ls + [l], Next(Run(ls, fs).value, l, fs).events, n, f)
  {
    var s := Run(ls, fs).value;
    var es, es' := s.events, Next(s, l, fs).events;
    StepWrites(s, l, fs, f);
    ArrivalsAreMessages(ls, fs);
    assert (ls + [l])[..|ls|] == ls;
    assert Changed(l.i, f) in es'[n..] by {
      var k :| 0 <= k < |es'[|es|..]| && es'[|es|..][k] == Changed(l.i, f);
      assert es'[n..][|es| - n + k] == Changed(l.i, f);
    }
    assert MayChange(Messages(ls + [l])[l.i].body, f);
  }

  /** From `s` to the end of the schedule the entry of `f` is kept, or a message that may do so wrote it. */
  ghost predicate KeptOrWritten(s: State, ls: seq<Label>, s': State, f: u32) {
    s.events <= s'.events && (Get(s'.table, f) == Get(s.table, f) || Written(ls, s'.events, |s.events|, f))
  }

  lemma StepKeepsOrWrites(s: State, ls: seq<Label>, l: Label, fs: Filesystem, f: u32)
    requires Run(ls, fs).Some? && Enabled(Run(ls, fs).value, l)
    requires KeptOrWritten(s, ls, Run(ls, fs).value, f)
    ensures KeptOrWritten(s, ls + [l], Next(Run(ls, fs).value, l, fs), f)
  {
    var t, n := Run(ls, fs).value, |s.events|;
    StepWrites(t, l, fs, f);
    if Written(ls, t.events, n, f) {
      WrittenLater(ls, l, t.events, Next(t, l, fs).events, n, f);
    } else if Get(Next(t, l, fs).table, f) != Get(t.table, f) {
      WrittenNow(ls, fs, l, n, f);
    }
  }

  /** In every interleaving: if the entry of a fid is not what it was at an earlier point, then in between
      it was changed by a Tclunk of the fid, or by a Tauth, Tattach, Twalk or Txattrwalk that names it as
      the new fid. So a Tremove or a Tversion, however it is answered, leaves its fid bound as it was. */
  lemma {:induction false} TableWriters(ls: seq<Label>, fs: Filesystem, k: nat, f: u32)
    requires Run(ls, fs).Some? && k <= |ls|
    ensures Run(ls[..k], fs).Some? && KeptOrWritten(Run(ls[..k], fs).value, ls, Run(ls, fs).value, f)
  {
    if k == |ls| {
      assert ls[..k] == ls;
    } else {
      var n := |ls| - 1;
      TableWriters(ls[..n], fs, k, f);
      assert ls[..n][..k] == ls[..k] && ls[..n] + [ls[n]] == ls;
      StepKeepsOrWrites(Run(ls[..k], fs).value, ls[..n], ls[n], fs, f);
    }
  }
}
