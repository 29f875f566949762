// What dispatch does with each message, told from the message itself: which fids it looks up, what it
// answers, and what it does to the fid table.
module DispatchLaws {
  import opened Wrappers
  import opened Protocol
  import opened Dispatch
  import opened DispatchRuns
  import opened TableChanges
  import opened Wire
  import Codec
  import Tags

  lemma LowCodes(f: Fcall)
    requires TypeCode(f) < 30
    ensures IsR(f) <==> TypeCode(f) % 2 == 1
  {
  }

  lemma MiddleCodes(f: Fcall)
    requires 30 <= TypeCode(f) < 100
    ensures IsR(f) <==> TypeCode(f) % 2 == 1
  {
  }

  lemma HighCodes(f: Fcall)
    requires 100 <= TypeCode(f)
    ensures IsR(f) <==> TypeCode(f) % 2 == 1
  {
  }

  /** The replies are the messages with an odd type code. */
  lemma RepliesAreOdd(f: Fcall)
    ensures IsR(f) <==> TypeCode(f) % 2 == 1
  {
    if TypeCode(f) < 30 {
      LowCodes(f);
    } else if TypeCode(f) < 100 {
      MiddleCodes(f);
    } else {
      HighCodes(f);
    }
  }

  // ----- lookups -----

  /** The operands of a request that are fids in use. A Tauth and a Tattach have only new ones. */
  function FidOperands(f: Fcall): seq<nat> {
    match f
    case Tversion(_, _) => []
    case Tflush(_) => []
    case Tauth(_, _, _, _) => []
    case Tattach(_, _, _, _, _) => []
    case Trename(_, _, _) => [0, 1]
    case Tlink(_, _, _) => [0, 1]
    case Trenameat(_, _, _, _) => [0, 2]
    case _ => [0]
  }

  /** What dispatch looks up are those operands of the message on the wire, in order. */
  lemma LooksUpOperands(f: Fcall)
    requires TypeCode(f) % 2 == 0
    ensures var ks, ops := FidOperands(f), Codec.Operands(f);
            && |Lookups(f)| == |ks|
            && forall j | 0 <= j < |ks| :: ks[j] < |ops| && ops[ks[j]] == U32(Lookups(f)[j])
  {
    RepliesAreOdd(f);
  }

  // ----- one message -----

  /** The table after the filesystem accepted request `i`. */
  function After(t: Table, i: nat, f: Fcall): Table {
    match f
    case Tclunk(fid) => t - {fid}
    case Tauth(afid, _, _, _) => t[afid := Fid(afid, i)]
    case Tattach(fid, _, _, _, _) => t[fid := Fid(fid, i)]
    case Twalk(_, newfid, _) => t[newfid := Fid(newfid, i)]
    case Txattrwalk(_, newfid, _) => t[newfid := Fid(newfid, i)]
    case _ => t
  }

  lemma ChangeIsAfter(t: Table, i: nat, m: Msg)
    ensures Update(t, i, RequestOf(m)) == After(t, i, m.body)
  {
  }

  /** One message served alone: a reply is not supported (95), an unbound fid is bad (9), and otherwise the
      filesystem decides, on the entries of the fids. It changes the table only if it accepts. */
  lemma ServesOnce(t: Table, i: nat, m: Msg, fs: Filesystem)
    ensures var s, ks := Serve(t, i, RequestOf(m), fs), Lookups(m.body);
            if TypeCode(m.body) % 2 == 1 then s.outcome == Failed(95) && s.table == t
            else if exists k | 0 <= k < |ks| :: ks[k] !in t then s.outcome == Failed(9) && s.table == t
            else
              && s.looked.Found? && |s.looked.fids| == |ks| && s.outcome == fs(i, s.looked.fids)
              && (forall k | 0 <= k < |ks| :: s.looked.fids[k] == t[ks[k]])
              && s.table == if s.outcome.Replied? then After(t, i, m.body) else t
  {
    RepliesAreOdd(m.body);
    ChangeIsAfter(t, i, m);
  }

  // ----- runs -----

  lemma MessageOf(ls: seq<Label>, fs: Filesystem, i: nat)
    requires Run(ls, fs).Some? && i < |Run(ls, fs).value.arrivals|
    ensures i < |Messages(ls)| && Run(ls, fs).value.arrivals[i] == RequestOf(Messages(ls)[i])
  {
    ArrivalsAreMessages(ls, fs);
  }

  /** The call of request `i` was accepted, and its table change, if it makes one, is done. */
  predicate Accepted(s: State, fs: Filesystem, i: nat)
    requires i < |s.tasks|
  {
    var t := s.tasks[i];
    (t.phase.Replying? || t.phase.Finished?) && t.looked.Found? && fs(i, t.looked.fids).Replied?
  }

  lemma MayChangeIs(m: Msg, f: u32)
    ensures MayChange(m.body, f) <==> f in Writes(RequestOf(m))
    ensures !RequestOf(m).change.NoChange? ==> Writes(RequestOf(m)) == {RequestOf(m).change.fid}
  {
  }

  lemma AcceptedMakes(s: State, fs: Filesystem, i: nat, f: u32)
    requires |s.tasks| == |s.arrivals| && i < |s.tasks|
    ensures Changed(i, f) in Made(s, i, fs) <==> Accepted(s, fs, i) && f in Writes(s.arrivals[i])
  {
  }

  /** In every interleaving a request has changed the entry of `f` exactly if it was accepted and drops `f`
      or names it as its new fid. */
  lemma ChangesAreMade(ls: seq<Label>, fs: Filesystem, i: nat, f: u32)
    requires Run(ls, fs).Some? && i < |Run(ls, fs).value.tasks|
    ensures i < |Messages(ls)|
    ensures Changed(i, f) in Run(ls, fs).value.events
            <==> Accepted(Run(ls, fs).value, fs, i) && MayChange(Messages(ls)[i].body, f)
  {
    var s := Run(ls, fs).value;
    EveryRequestInOrder(ls, fs);
    MessageOf(ls, fs, i);
    MayChangeIs(Messages(ls)[i], f);
    assert Of(s.events, i) == Made(s, i, fs);
    AcceptedMakes(s, fs, i, f);
    if Changed(i, f) in s.events {
      var k :| 0 <= k < |s.events| && s.events[k] == Changed(i, f);
      OfHas(s.events, k);
    }
    if Changed(i, f) in Made(s, i, fs) {
      OfIsPart(s.events, i, Changed(i, f));
    }
  }

  lemma StepUpdates(s: State, l: Label, fs: Filesystem)
    requires TasksOk(s, fs) && Enabled(s, l) && (l.Remove? || l.Insert?)
    ensures Next(s, l, fs).table == Update(s.table, l.i, s.arrivals[l.i])
  {
    assert TaskOk(s, l.i, fs);
  }

  /** ... and when it changes the table, it changes it to what its message says. */
  lemma ChangesAreWritten(ls: seq<Label>, fs: Filesystem, l: Label)
    requires Run(ls, fs).Some? && Enabled(Run(ls, fs).value, l) && (l.Remove? || l.Insert?)
    ensures l.i < |Messages(ls)|
    ensures Next(Run(ls, fs).value, l, fs).table
         == After(Run(ls, fs).value.table, l.i, Messages(ls)[l.i].body)
  {
    RunsKeepTasks(ls, fs);
    StepUpdates(Run(ls, fs).value, l, fs);
    MessageOf(ls, fs, l.i);
    ChangeIsAfter(Run(ls, fs).value.table, l.i, Messages(ls)[l.i]);
  }

  /** What request `i` is answered: the reply of the filesystem, or an Rlerror with its error number, with
      9 for an unbound fid or with 95 for a message that is a reply. */
  ghost predicate Answers(looked: Looked, fs: Filesystem, i: nat, body: Fcall) {
    match looked
    case Pending => false
    case Unsupported => body == Rlerror(95)
    case Missing => body == Rlerror(9)
    case Found(fids) =>
      match fs(i, fids)
      case Replied(b) => body == b
      case Failed(errno) => body == Rlerror(errno)
  }

  /** In every interleaving a reply carries the tag of its message and answers it. */
  lemma RepliesAnswer(ls: seq<Label>, fs: Filesystem, i: nat, reply: Msg)
    requires Run(ls, fs).Some? && i < |Run(ls, fs).value.tasks|
    requires Sent(i, reply) in Run(ls, fs).value.events
    ensures i < |Messages(ls)| && reply.tag == Messages(ls)[i].tag && TypeCode(reply.body) % 2 == 1
    ensures Answers(Run(ls, fs).value.tasks[i].looked, fs, i, reply.body)
  {
    var s := Run(ls, fs).value;
    AnsweredEvents(ls, fs, i, reply);
    MessageOf(ls, fs, i);
    EveryRequestInOrder(ls, fs);
    var k :| 0 <= k < |s.events| && s.events[k] == Sent(i, reply);
    OfHas(s.events, k);
    assert Sent(i, reply) in Made(s, i, fs);
    RepliesAreOdd(reply.body);
  }

  function TagsOf(ms: seq<Msg>): multiset<u16> {
    if ms == [] then multiset{} else TagsOf(ms[..|ms| - 1]) + multiset{ms[|ms| - 1].tag}
  }

  lemma {:induction false} SameTags(rs: seq<Request>, ms: seq<Msg>)
    requires |rs| == |ms| && forall i | 0 <= i < |rs| :: rs[i].tag == ms[i].tag
    ensures Tags.ArrivedTags(rs) == TagsOf(ms)
  {
    if rs != [] {
      SameTags(rs[..|rs| - 1], ms[..|ms| - 1]);
    }
  }

  /** The tags that arrive are the tags of the messages. */
  lemma ArrivedTagsAre(ls: seq<Label>, fs: Filesystem)
    requires Run(ls, fs).Some?
    ensures Tags.ArrivedTags(Run(ls, fs).value.arrivals) == TagsOf(Messages(ls))
  {
    ArrivalsAreMessages(ls, fs);
    SameTags(Run(ls, fs).value.arrivals, Messages(ls));
  }
}
