// In every interleaving of the request tasks, tags are neither lost nor made up.
module Tags {
  import opened Protocol
  import opened Dispatch
  import opened DispatchRuns

  function ArrivedTags(rs: seq<Request>): multiset<u16> {
    if rs == [] then multiset{} else ArrivedTags(rs[..|rs| - 1]) + multiset{rs[|rs| - 1].tag}
  }

  function SentTags(es: seq<Event>): multiset<u16> {
    if es == [] then multiset{}
    else SentTags(es[..|es| - 1]) + (if es[|es| - 1].Sent? then multiset{es[|es| - 1].msg.tag} else multiset{})
  }

  lemma SentTagsSnoc(es: seq<Event>, e: Event)
    ensures SentTags(es + [e]) == SentTags(es) + (if e.Sent? then multiset{e.msg.tag} else multiset{})
  {
    assert (es + [e])[..|es|] == es;
  }

  predicate InFlight(p: Phase) {
    !p.Finished?
  }

  /** Finished without a reply, because the filesystem answered with something that is none. */
  predicate Unanswered(p: Phase) {
    p.Finished? && !IsR(p.reply)
  }

  function TagsWhere(rs: seq<Request>, ts: seq<Task>, want: Phase -> bool): multiset<u16>
    requires |rs| == |ts|
  {
    if rs == [] then multiset{}
    else
      var n := |rs| - 1;
      TagsWhere(rs[..n], ts[..n], want) + (if want(ts[n].phase) then multiset{rs[n].tag} else multiset{})
  }

  lemma {:induction false} TagsAfterMove(rs: seq<Request>, ts: seq<Task>, i: nat, t: Task, want: Phase -> bool)
    requires |rs| == |ts| && i < |ts|
    ensures TagsWhere(rs, ts[i := t], want) + (if want(ts[i].phase) then multiset{rs[i].tag} else multiset{})
         == TagsWhere(rs, ts, want) + (if want(t.phase) then multiset{rs[i].tag} else multiset{})
  {
    var n := |rs| - 1;
    if i < n {
      assert ts[i := t][..n] == ts[..n][i := t];
      TagsAfterMove(rs[..n], ts[..n], i, t, want);
    } else {
      assert ts[i := t][..n] == ts[..n];
    }
  }

  ghost predicate TagsOk(s: State)
    requires |s.tasks| == |s.arrivals|
  {
    ArrivedTags(s.arrivals) == SentTags(s.events) + TagsWhere(s.arrivals, s.tasks, InFlight)
                               + TagsWhere(s.arrivals, s.tasks, Unanswered)
  }

  lemma TagsReceive(s: State, m: Request)
    requires |s.tasks| == |s.arrivals| && TagsOk(s)
    ensures TagsOk(s.(arrivals := s.arrivals + [m], tasks := s.tasks + [Task(Pending, Received)]))
  {
    assert (s.arrivals + [m])[..|s.arrivals|] == s.arrivals;
    assert (s.tasks + [Task(Pending, Received)])[..|s.tasks|] == s.tasks;
  }

  lemma Balance(all: multiset<u16>, sent: multiset<u16>, flight: multiset<u16>, lost: multiset<u16>,
                flight': multiset<u16>, lost': multiset<u16>, leaves: multiset<u16>, answered: bool)
    requires all == sent + flight + lost
    requires flight' + leaves == flight
    requires lost' == (if answered then lost else lost + leaves)
    ensures all == (if answered then sent + leaves else sent) + flight' + lost'
  {
  }

  lemma CancelTag(a: multiset<u16>, b: multiset<u16>, tag: multiset<u16>)
    requires a + tag == b + tag
    ensures a == b
  {
    assert (a + tag) - tag == a && (b + tag) - tag == b;
  }

  lemma FlightAfter(rs: seq<Request>, ts: seq<Task>, i: nat, t: Task)
    requires i < |ts| == |rs| && InFlight(ts[i].phase)
    ensures TagsWhere(rs, ts[i := t], InFlight) + (if InFlight(t.phase) then multiset{} else multiset{rs[i].tag})
         == TagsWhere(rs, ts, InFlight)
  {
    TagsAfterMove(rs, ts, i, t, InFlight);
    if InFlight(t.phase) {
      CancelTag(TagsWhere(rs, ts[i := t], InFlight), TagsWhere(rs, ts, InFlight), multiset{rs[i].tag});
    }
  }

  lemma LostAfter(rs: seq<Request>, ts: seq<Task>, i: nat, t: Task)
    requires i < |ts| == |rs| && InFlight(ts[i].phase)
    ensures TagsWhere(rs, ts[i := t], Unanswered)
         == TagsWhere(rs, ts, Unanswered) + (if Unanswered(t.phase) then multiset{rs[i].tag} else multiset{})
  {
    TagsAfterMove(rs, ts, i, t, Unanswered);
  }

  /** Moving one task keeps the balance when its tag leaves the flight exactly with a reply or
      with a non-reply. */
  lemma TagsMove(s: State, i: nat, t: Task, es: seq<Event>)
    requires i < |s.tasks| == |s.arrivals| && TagsOk(s) && InFlight(s.tasks[i].phase)
    requires SentTags(es) == SentTags(s.events)
             + (if InFlight(t.phase) || Unanswered(t.phase) then multiset{} else multiset{s.arrivals[i].tag})
    ensures TagsOk(Advance(s, i, t).(events := es))
  {
    FlightAfter(s.arrivals, s.tasks, i, t);
    LostAfter(s.arrivals, s.tasks, i, t);
    Balance(ArrivedTags(s.arrivals), SentTags(s.events),
            TagsWhere(s.arrivals, s.tasks, InFlight), TagsWhere(s.arrivals, s.tasks, Unanswered),
            TagsWhere(s.arrivals, s.tasks[i := t], InFlight), TagsWhere(s.arrivals, s.tasks[i := t], Unanswered),
            if InFlight(t.phase) then multiset{} else multiset{s.arrivals[i].tag}, !Unanswered(t.phase));
  }

  lemma ReplyTags(s: State, i: nat, fs: Filesystem)
    requires Enabled(s, Reply(i))
    ensures var s' := Next(s, Reply(i), fs);
            SentTags(s'.events) == SentTags(s.events)
            + (if Unanswered(s'.tasks[i].phase) then multiset{} else multiset{s.arrivals[i].tag})
  {
    var body := s.tasks[i].phase.reply;
    if IsR(body) {
      SentTagsSnoc(s.events, Sent(i, Msg(s.arrivals[i].tag, body)));
    } else {
      assert s.events + [] == s.events;
    }
  }

  lemma ChangeTags(s: State, l: Label, fs: Filesystem)
    requires Enabled(s, l) && (l.Remove? || l.Insert?) && TaskOk(s, l.i, fs)
    ensures SentTags(Next(s, l, fs).events) == SentTags(s.events) && InFlight(Next(s, l, fs).tasks[l.i].phase)
  {
    SentTagsSnoc(s.events, Changed(l.i, s.arrivals[l.i].change.fid));
  }

  /** A step sends the tag of its task exactly when it ends with a reply. */
  lemma SentAfter(s: State, l: Label, fs: Filesystem)
    requires Enabled(s, l) && !l.Receive? && TaskOk(s, l.i, fs)
    ensures var s' := Next(s, l, fs);
            var p := s'.tasks[l.i].phase;
            && (InFlight(p) || Unanswered(p) ==> SentTags(s'.events) == SentTags(s.events))
            && (!InFlight(p) && !Unanswered(p)
                ==> SentTags(s'.events) == SentTags(s.events) + multiset{s.arrivals[l.i].tag})
  {
    if l.Reply? {
      ReplyTags(s, l.i, fs);
    } else if l.Remove? || l.Insert? {
      ChangeTags(s, l, fs);
    }
  }

  lemma TagsStep(s: State, l: Label, fs: Filesystem)
    requires TasksOk(s, fs) && Enabled(s, l) && TagsOk(s)
    ensures TagsOk(Next(s, l, fs))
  {
    var s' := Next(s, l, fs);
    if l.Receive? {
      TagsReceive(s, RequestOf(l.msg));
    } else {
      assert TaskOk(s, l.i, fs);
      SentAfter(s, l, fs);
      TagsMove(s, l.i, s'.tasks[l.i], s'.events);
    }
  }

  /** In every run: received tags == replied tags + tags in flight + tags of requests the
      filesystem answered with something other than an R-message. */
  lemma {:induction false} TagsAreConserved(ls: seq<Label>, fs: Filesystem)
    requires Run(ls, fs).Some?
    ensures var s := Run(ls, fs).value; |s.tasks| == |s.arrivals| && TagsOk(s)
  {
    RunsKeepTasks(ls, fs);
    if ls != [] {
      var n := |ls| - 1;
      RunsKeepTasks(ls[..n], fs);
      TagsAreConserved(ls[..n], fs);
      TagsStep(Run(ls[..n], fs).value, ls[n], fs);
    }
  }

  lemma {:induction false} NoTagsWhere(rs: seq<Request>, ts: seq<Task>, want: Phase -> bool)
    requires |rs| == |ts| && forall i | 0 <= i < |ts| :: !want(ts[i].phase)
    ensures TagsWhere(rs, ts, want) == multiset{}
  {
    if rs != [] {
      NoTagsWhere(rs[..|rs| - 1], ts[..|ts| - 1], want);
    }
  }

  /** The filesystem never answers with anything but an R-message. */
  ghost predicate AnswersOnlyR(fs: Filesystem) {
    forall i: nat, fids :: fs(i, fids).Replied? ==> IsR(fs(i, fids).body)
  }

  lemma TaskIsAnswered(s: State, i: nat, fs: Filesystem)
    requires i < |s.tasks| == |s.arrivals| && TaskOk(s, i, fs) && AnswersOnlyR(fs)
    ensures !Unanswered(s.tasks[i].phase)
  {
    var looked := s.tasks[i].looked;
    if looked.Found? {
      var o := fs(i, looked.fids);
      assert o.Replied? ==> IsR(o.body);
    }
  }

  /** With such a filesystem nothing goes unanswered. */
  lemma EveryTagIsAnswered(ls: seq<Label>, fs: Filesystem)
    requires Run(ls, fs).Some? && AnswersOnlyR(fs)
    ensures var s := Run(ls, fs).value;
            |s.tasks| == |s.arrivals|
            && ArrivedTags(s.arrivals) == SentTags(s.events) + TagsWhere(s.arrivals, s.tasks, InFlight)
  {
    var s := Run(ls, fs).value;
    RunsKeepTasks(ls, fs);
    TagsAreConserved(ls, fs);
    forall i | 0 <= i < |s.tasks| ensures !Unanswered(s.tasks[i].phase) {
      TaskIsAnswered(s, i, fs);
    }
    NoTagsWhere(s.arrivals, s.tasks, Unanswered);
  }
}
