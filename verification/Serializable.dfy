// Runs in which no two outstanding requests conflict behave like serial dispatch in arrival order.
module Serializable {
  import opened Protocol
  import opened Dispatch
  import opened DispatchRuns

  /** The client's discipline: a message is sent only when it conflicts with no request that is
      still outstanding. */
  ghost predicate Careful(s: State, l: Label) {
    l.Receive? ==>
      forall i | 0 <= i < |s.tasks| && i < |s.arrivals| && !s.tasks[i].phase.Finished? ::
        !Conflict(s.arrivals[i], RequestOf(l.msg))
  }

  ghost predicate CarefulRun(ls: seq<Label>, fs: Filesystem)
    requires Run(ls, fs).Some?
  {
    ls == [] ||
    (CarefulRun(ls[..|ls| - 1], fs) && Careful(Run(ls[..|ls| - 1], fs).value, ls[|ls| - 1]))
  }

  /** The request has not reached the point where its table change is done or ruled out. */
  predicate Open(p: Phase) {
    !p.Replying? && !p.Finished?
  }

  /** The entry of `k` is about to be decided by an open request. */
  ghost predicate Claimed(s: State, k: u32)
    requires |s.tasks| == |s.arrivals|
  {
    exists i | 0 <= i < |s.tasks| :: Open(s.tasks[i].phase) && k in Writes(s.arrivals[i])
  }

  /** An open request sees, on the fids it touches, the serial table of its own turn. */
  ghost predicate SeesItsTurn(s: State, i: nat, fs: Filesystem)
    requires i < |s.tasks| == |s.arrivals|
  {
    Open(s.tasks[i].phase) ==>
      forall k :: k in Touches(s.arrivals[i]) ==> Get(s.table, k) == Get(SerialTable(s.arrivals[..i], fs), k)
  }

  /** What a request looked up is what it would have looked up in the serial run. */
  predicate LookedInTurn(s: State, i: nat, fs: Filesystem)
    requires i < |s.tasks| == |s.arrivals|
  {
    s.tasks[i].looked.Pending? || s.tasks[i].looked == SerialServed(s.arrivals, i, fs).looked
  }

  /** Nothing that arrived while a request was outstanding conflicts with it. */
  predicate Apart(s: State, i: nat, j: nat)
    requires i < j < |s.tasks| == |s.arrivals|
  {
    s.tasks[i].phase.Finished? || !Conflict(s.arrivals[i], s.arrivals[j])
  }

  ghost predicate SerialOk(s: State, fs: Filesystem) {
    && TasksOk(s, fs)
    && (forall i | 0 <= i < |s.tasks| :: SeesItsTurn(s, i, fs) && LookedInTurn(s, i, fs))
    && (forall i, j | 0 <= i < j < |s.tasks| :: Apart(s, i, j))
    && (forall k :: !Claimed(s, k) ==> Get(s.table, k) == Get(SerialTable(s.arrivals, fs), k))
  }

  /** Of two requests that do not conflict, neither changes a fid the other touches. */
  lemma Disjoint(a: Request, b: Request, k: u32)
    requires !Conflict(a, b) && k in Touches(a)
    ensures k !in Writes(b)
  {
    assert k in Writes(b) ==> k in Writes(b) * Touches(a);
  }

  /** A fid that nothing after `i` changes keeps its serial entry. */
  lemma {:induction false} SerialFrame(rs: seq<Request>, i: nat, fs: Filesystem, k: u32)
    requires i <= |rs|
    requires forall j | i <= j < |rs| :: k !in Writes(rs[j])
    ensures Get(SerialTable(rs, fs), k) == Get(SerialTable(rs[..i], fs), k)
  {
    var n := |rs| - 1;
    if i <= n {
      SerialFrame(rs[..n], i, fs, k);
      assert rs[..n][..i] == rs[..i];
      ServeFrame(SerialTable(rs[..n], fs), n, rs[n], fs, k);
    } else {
      assert rs[..i] == rs;
    }
  }

  /** ... in particular the fids an outstanding request changes, after its own turn. */
  lemma OwnEntry(s: State, i: nat, fs: Filesystem, k: u32)
    requires SerialOk(s, fs) && i < |s.tasks| && !s.tasks[i].phase.Finished?
    requires k in Writes(s.arrivals[i])
    ensures Get(SerialTable(s.arrivals, fs), k) == Get(SerialServed(s.arrivals, i, fs).table, k)
  {
    forall j | i + 1 <= j < |s.arrivals| ensures k !in Writes(s.arrivals[j]) {
      assert Apart(s, i, j);
      Disjoint(s.arrivals[i], s.arrivals[j], k);
    }
    SerialFrame(s.arrivals, i + 1, fs, k);
    assert s.arrivals[..i + 1][..i] == s.arrivals[..i];
  }

  lemma ReceiveKeepsSerial(s: State, m: Msg, fs: Filesystem)
    requires SerialOk(s, fs) && Careful(s, Receive(m))
    ensures SerialOk(Next(s, Receive(m), fs), fs)
  {
    var s', n, r := Next(s, Receive(m), fs), |s.arrivals|, RequestOf(m);
    TasksOkStep(s, Receive(m), fs);
    assert s'.arrivals[..n] == s.arrivals;
    forall i | 0 <= i < |s'.tasks| ensures SeesItsTurn(s', i, fs) && LookedInTurn(s', i, fs) {
      if i < n {
        assert SeesItsTurn(s, i, fs) && LookedInTurn(s, i, fs);
        assert s'.arrivals[..i] == s.arrivals[..i];
      } else {
        forall k | k in Touches(r) ensures Get(s.table, k) == Get(SerialTable(s.arrivals, fs), k) {
          forall j | 0 <= j < n && Open(s.tasks[j].phase) ensures k !in Writes(s.arrivals[j]) {
            Disjoint(r, s.arrivals[j], k);
          }
          assert !Claimed(s, k);
        }
      }
    }
    forall i, j | 0 <= i < j < |s'.tasks| ensures Apart(s', i, j) {
      if j < n {
        assert Apart(s, i, j);
      }
    }
    forall k | !Claimed(s', k) ensures Get(s'.table, k) == Get(SerialTable(s'.arrivals, fs), k) {
      assert Open(s'.tasks[n].phase) && s'.arrivals[n] == r;
      assert k !in Writes(r);
      forall i | 0 <= i < n && Open(s.tasks[i].phase) ensures k !in Writes(s.arrivals[i]) {
        assert s'.tasks[i] == s.tasks[i] && s'.arrivals[i] == s.arrivals[i];
      }
      assert !Claimed(s, k);
      ServeFrame(SerialTable(s.arrivals, fs), n, r, fs, k);
    }
  }

  /** A step of task `i` that leaves the table and the set of open requests alone. */
  lemma QuietStepKeepsSerial(s: State, s': State, i: nat, fs: Filesystem)
    requires SerialOk(s, fs) && TasksOk(s', fs) && i < |s.tasks|
    requires s'.table == s.table && s'.arrivals == s.arrivals && s'.tasks == s.tasks[i := s'.tasks[i]]
    requires Open(s'.tasks[i].phase) == Open(s.tasks[i].phase) && !s.tasks[i].phase.Finished?
    requires LookedInTurn(s', i, fs)
    ensures SerialOk(s', fs)
  {
    forall j | 0 <= j < |s'.tasks| ensures SeesItsTurn(s', j, fs) && LookedInTurn(s', j, fs) {
      assert SeesItsTurn(s, j, fs) && LookedInTurn(s, j, fs);
    }
    forall j, k | 0 <= j < k < |s'.tasks| ensures Apart(s', j, k) {
      assert Apart(s, j, k);
    }
    forall k | !Claimed(s', k) ensures !Claimed(s, k) {
      forall j | 0 <= j < |s.tasks| && Open(s.tasks[j].phase) ensures k !in Writes(s.arrivals[j]) {
        assert Open(s'.tasks[j].phase);
      }
    }
  }

  /** The step that decides the fids task `i` writes, with the value of the serial run. */
  lemma DecidingStepKeepsSerial(s: State, s': State, i: nat, fs: Filesystem)
    requires SerialOk(s, fs) && TasksOk(s', fs) && i < |s.tasks|
    requires s'.arrivals == s.arrivals && s'.tasks == s.tasks[i := s'.tasks[i]]
    requires Open(s.tasks[i].phase) && s'.tasks[i].phase.Replying?
    requires LookedInTurn(s', i, fs)
    requires forall k :: k !in Writes(s.arrivals[i]) ==> Get(s'.table, k) == Get(s.table, k)
    requires forall k :: k in Writes(s.arrivals[i]) ==>
               Get(s'.table, k) == Get(SerialServed(s.arrivals, i, fs).table, k)
    ensures SerialOk(s', fs)
  {
    forall j, k | 0 <= j < k < |s'.tasks| ensures Apart(s', j, k) {
      assert Apart(s, j, k);
    }
    forall j | 0 <= j < |s'.tasks| ensures SeesItsTurn(s', j, fs) && LookedInTurn(s', j, fs) {
      assert SeesItsTurn(s, j, fs) && LookedInTurn(s, j, fs);
      if j != i && Open(s.tasks[j].phase) {
        assert if i < j then Apart(s, i, j) else Apart(s, j, i);
        forall k | k in Touches(s.arrivals[j]) ensures k !in Writes(s.arrivals[i]) {
          Disjoint(s.arrivals[j], s.arrivals[i], k);
        }
      }
    }
    forall k | !Claimed(s', k) ensures Get(s'.table, k) == Get(SerialTable(s'.arrivals, fs), k) {
      if k in Writes(s.arrivals[i]) {
        OwnEntry(s, i, fs, k);
      } else {
        forall j | 0 <= j < |s.tasks| && Open(s.tasks[j].phase) ensures k !in Writes(s.arrivals[j]) {
          assert j != i ==> s'.tasks[j] == s.tasks[j];
        }
        assert !Claimed(s, k);
      }
    }
  }

  /** A request that fails leaves its fids as its turn found them. */
  lemma FailingStepKeepsSerial(s: State, s': State, i: nat, fs: Filesystem)
    requires SerialOk(s, fs) && TasksOk(s', fs) && i < |s.tasks|
    requires s'.table == s.table && s'.arrivals == s.arrivals && s'.tasks == s.tasks[i := s'.tasks[i]]
    requires Open(s.tasks[i].phase) && s'.tasks[i].phase.Replying?
    requires LookedInTurn(s', i, fs)
    requires SerialServed(s.arrivals, i, fs).outcome.Failed? || Writes(s.arrivals[i]) == {}
    ensures SerialOk(s', fs)
  {
    assert SeesItsTurn(s, i, fs);
    var f := s.arrivals[i];
    forall k | k in Writes(f) ensures Get(s'.table, k) == Get(SerialServed(s.arrivals, i, fs).table, k) {
      assert k in Touches(f);
      ServeFrame(SerialTable(s.arrivals[..i], fs), i, f, fs, k);
    }
    DecidingStepKeepsSerial(s, s', i, fs);
  }

  /** A request that succeeds writes what its turn in the serial run writes. */
  lemma WritingStepKeepsSerial(s: State, s': State, i: nat, fs: Filesystem)
    requires SerialOk(s, fs) && TasksOk(s', fs) && i < |s.tasks|
    requires s'.arrivals == s.arrivals && s'.tasks == s.tasks[i := s'.tasks[i]]
    requires Open(s.tasks[i].phase) && s'.tasks[i].phase.Replying?
    requires LookedInTurn(s', i, fs) && SerialServed(s.arrivals, i, fs).outcome.Replied?
    requires s'.table == Update(s.table, i, s.arrivals[i])
    ensures SerialOk(s', fs)
  {
    var f, t := s.arrivals[i], SerialTable(s.arrivals[..i], fs);
    forall k | k in Writes(f) ensures Get(s'.table, k) == Get(SerialServed(s.arrivals, i, fs).table, k) {
      UpdateFrame(s.table, t, i, f, k);
    }
    DecidingStepKeepsSerial(s, s', i, fs);
  }

  lemma LookupKeepsSerial(s: State, i: nat, fs: Filesystem)
    requires SerialOk(s, fs) && Enabled(s, Lookup(i))
    ensures SerialOk(Next(s, Lookup(i), fs), fs)
  {
    var s' := Next(s, Lookup(i), fs);
    TasksOkStep(s, Lookup(i), fs);
    assert SeesItsTurn(s, i, fs);
    LookFrame(s.table, SerialTable(s.arrivals[..i], fs), s.arrivals[i]);
    if s'.tasks[i].looked.Found? {
      QuietStepKeepsSerial(s, s', i, fs);
    } else {
      FailingStepKeepsSerial(s, s', i, fs);
    }
  }

  lemma ReturnKeepsSerial(s: State, i: nat, fs: Filesystem)
    requires SerialOk(s, fs) && Enabled(s, Return(i))
    ensures SerialOk(Next(s, Return(i), fs), fs)
  {
    var s' := Next(s, Return(i), fs);
    TasksOkStep(s, Return(i), fs);
    assert TaskOk(s, i, fs) && LookedInTurn(s, i, fs);
    if s'.tasks[i].phase.Replying? {
      FailingStepKeepsSerial(s, s', i, fs);
    } else {
      QuietStepKeepsSerial(s, s', i, fs);
    }
  }

  lemma ChangeKeepsSerial(s: State, l: Label, fs: Filesystem)
    requires SerialOk(s, fs) && Enabled(s, l) && (l.Remove? || l.Insert?)
    ensures SerialOk(Next(s, l, fs), fs)
  {
    var s' := Next(s, l, fs);
    TasksOkStep(s, l, fs);
    assert TaskOk(s, l.i, fs) && LookedInTurn(s, l.i, fs);
    WritingStepKeepsSerial(s, s', l.i, fs);
  }

  lemma SerialStep(s: State, l: Label, fs: Filesystem)
    requires SerialOk(s, fs) && Enabled(s, l) && Careful(s, l)
    ensures SerialOk(Next(s, l, fs), fs)
  {
    match l
    case Receive(m) => ReceiveKeepsSerial(s, m, fs);
    case Lookup(i) => LookupKeepsSerial(s, i, fs);
    case Return(i) => ReturnKeepsSerial(s, i, fs);
    case Remove(_) => ChangeKeepsSerial(s, l, fs);
    case Insert(_) => ChangeKeepsSerial(s, l, fs);
    case Reply(i) =>
      TasksOkStep(s, l, fs);
      assert LookedInTurn(s, i, fs);
      QuietStepKeepsSerial(s, Next(s, l, fs), i, fs);
  }

  lemma {:induction false} CarefulRunsAreSerial(ls: seq<Label>, fs: Filesystem)
    requires Run(ls, fs).Some? && CarefulRun(ls, fs)
    ensures SerialOk(Run(ls, fs).value, fs)
  {
    if ls != [] {
      var n := |ls| - 1;
      CarefulRunsAreSerial(ls[..n], fs);
      SerialStep(Run(ls[..n], fs).value, ls[n], fs);
    }
  }

  /** Each request that has done its lookups found the fids of the serial run, each request that has
      been decided has the reply of the serial run, and once no request is open the fid table is the
      serial table. */
  ghost predicate EqualsSerial(s: State, fs: Filesystem) {
    && |s.tasks| == |s.arrivals|
    && (forall i | 0 <= i < |s.tasks| :: LookedInTurn(s, i, fs) && RepliesInTurn(s, i, fs))
    && ((forall i | 0 <= i < |s.tasks| :: !Open(s.tasks[i].phase)) ==> s.table == SerialTable(s.arrivals, fs))
  }

  predicate RepliesInTurn(s: State, i: nat, fs: Filesystem)
    requires i < |s.tasks| == |s.arrivals|
  {
    s.tasks[i].phase.Replying? || s.tasks[i].phase.Finished? ==>
      s.tasks[i].phase.reply == ReplyBody(SerialServed(s.arrivals, i, fs).outcome)
  }

  /** Every careful interleaving equals serial dispatch in arrival order. */
  lemma Serializability(ls: seq<Label>, fs: Filesystem)
    requires Run(ls, fs).Some? && CarefulRun(ls, fs)
    ensures EqualsSerial(Run(ls, fs).value, fs)
  {
    var s := Run(ls, fs).value;
    CarefulRunsAreSerial(ls, fs);
    forall i | 0 <= i < |s.tasks| ensures LookedInTurn(s, i, fs) && RepliesInTurn(s, i, fs) {
      assert TaskOk(s, i, fs) && LookedInTurn(s, i, fs);
    }
    if forall i | 0 <= i < |s.tasks| :: !Open(s.tasks[i].phase) {
      var t := SerialTable(s.arrivals, fs);
      forall k ensures Get(s.table, k) == Get(t, k) {
        assert !Claimed(s, k);
      }
      SameEntries(s.table, t);
    }
  }

  lemma SameEntries(t: Table, u: Table)
    requires forall k :: Get(t, k) == Get(u, k)
    ensures t == u
  {
    forall k: u32 ensures k in t <==> k in u {
      assert Get(t, k) == Get(u, k);
    }
    forall k | k in t ensures t[k] == u[k] {
      assert Get(t, k) == Get(u, k);
    }
  }
}
