// The 9P server's request dispatch (srv.rs): one message served against the fid table.
module Dispatch {
  import opened Wrappers
  import opened Protocol

  const EBADF: u32 := 9
  const EOPNOTSUPP: u32 := 95

  /** A table entry: the client's number, and the request that allocated the filesystem's state
      (`aux` is a fresh default value of that request). */
  datatype Fid = Fid(raw: u32, owner: nat)

  type Table = map<u32, Fid>

  /** What the filesystem method returns. */
  datatype Outcome = Replied(body: Fcall) | Failed(errno: u32)

  /** The filesystem, as an oracle: the result of request number `i` on the fids it was given. */
  type Filesystem = (nat, seq<Fid>) -> Outcome

  /** The requests `dispatch_once` has an arm for. */
  predicate Supported(f: Fcall) {
    !IsR(f)
  }

  /** The fids looked up by the arm of `f`, in evaluation order. */
  function Lookups(f: Fcall): seq<u32> {
    match f
    case Tstatfs(fid) => [fid]
    case Tlopen(fid, _) => [fid]
    case Tlcreate(fid, _, _, _, _) => [fid]
    case Tsymlink(fid, _, _, _) => [fid]
    case Tmknod(dfid, _, _, _, _, _) => [dfid]
    case Trename(fid, dfid, _) => [fid, dfid]
    case Treadlink(fid) => [fid]
    case Tgetattr(fid, _) => [fid]
    case Tsetattr(fid, _, _) => [fid]
    case Txattrwalk(fid, _, _) => [fid]
    case Txattrcreate(fid, _, _, _) => [fid]
    case Treaddir(fid, _, _) => [fid]
    case Tfsync(fid) => [fid]
    case Tlock(fid, _) => [fid]
    case Tgetlock(fid, _) => [fid]
    case Tlink(dfid, fid, _) => [dfid, fid]
    case Tmkdir(dfid, _, _, _) => [dfid]
    case Trenameat(olddirfid, _, newdirfid, _) => [olddirfid, newdirfid]
    case Tunlinkat(dirfd, _, _) => [dirfd]
    case Tauth(_, _, _, _) => []
    case Tattach(_, _, _, _, _) => []
    case Tversion(_, _) => []
    case Tflush(_) => []
    case Twalk(fid, _, _) => [fid]
    case Tread(fid, _, _) => [fid]
    case Twrite(fid, _, _) => [fid]
    case Tclunk(fid) => [fid]
    case Tremove(fid) => [fid]
    case _ => []
  }

  /** What dispatch does with a message, apart from calling the filesystem: the fids it looks up,
      the one it drops and the one it binds when the call succeeds. */
  datatype Request = Request(tag: u16, supported: bool, lookups: seq<u32>, change: Change)

  datatype Change = NoChange | Drop(fid: u32) | Bind(fid: u32)

  function RequestOf(m: Msg): Request {
    Request(m.tag, Supported(m.body), Lookups(m.body),
            if m.body.Tclunk? then Drop(m.body.fid)
            else if NewFid(m.body).Some? then Bind(NewFid(m.body).value)
            else NoChange)
  }

  /** The fids whose table entry a successful request changes. */
  function Writes(r: Request): set<u32> {
    if r.change.NoChange? then {} else {r.change.fid}
  }

  /** The fids a request reads or changes. */
  function Touches(r: Request): set<u32> {
    (set x | x in r.lookups) + Writes(r)
  }

  /** Two requests conflict when one changes a fid the other touches. */
  predicate Conflict(a: Request, b: Request) {
    Writes(a) * Touches(b) != {} || Writes(b) * Touches(a) != {}
  }

  /** `Fcall::fids` agrees with the lookups of dispatch except for a Tattach that names an
      authentication fid: dispatch passes no afid to the filesystem and never looks it up. */
  lemma FidsAreLookedUp(f: Fcall)
    ensures Fids(f) == Lookups(f) <==> !(f.Tattach? && f.afid != 0xffff_ffff)
  {
  }

  function Get(t: Table, f: u32): Option<Fid> {
    if f in t then Some(t[f]) else None
  }

  /** The result of the lookups of one request. */
  datatype Looked = Pending | Unsupported | Missing | Found(fids: seq<Fid>)

  function Look(t: Table, r: Request): Looked {
    var ks := r.lookups;
    if !r.supported then Unsupported
    else if forall k | 0 <= k < |ks| :: ks[k] in t then
      Found(seq(|ks|, k requires 0 <= k < |ks| && ks[k] in t => t[ks[k]]))
    else Missing
  }

  /** The table after request `i` succeeded: Tclunk drops its fid, a new fid is bound to the
      request's own state, replacing whatever it named before. */
  function Update(t: Table, i: nat, r: Request): Table {
    match r.change
    case NoChange => t
    case Drop(n) => t - {n}
    case Bind(n) => t[n := Fid(n, i)]
  }

  /** The errno replies of the two failing lookups, or what the filesystem says. */
  function Answer(looked: Looked, i: nat, fs: Filesystem): Outcome
    requires !looked.Pending?
  {
    match looked
    case Unsupported => Failed(EOPNOTSUPP)
    case Missing => Failed(EBADF)
    case Found(fids) => fs(i, fids)
  }

  function ReplyBody(o: Outcome): Fcall {
    match o
    case Replied(body) => body
    case Failed(errno) => Rlerror(errno)
  }

  /** One request served alone. */
  datatype Served = Served(looked: Looked, outcome: Outcome, table: Table)

  function Serve(t: Table, i: nat, r: Request, fs: Filesystem): Served {
    var looked := Look(t, r);
    var outcome := Answer(looked, i, fs);
    Served(looked, outcome, if outcome.Replied? then Update(t, i, r) else t)
  }

  /** The table after serving the requests one after the other in arrival order. */
  function SerialTable(rs: seq<Request>, fs: Filesystem): Table {
    if rs == [] then map[]
    else
      var n := |rs| - 1;
      Serve(SerialTable(rs[..n], fs), n, rs[n], fs).table
  }

  function Requests(ms: seq<Msg>): seq<Request> {
    seq(|ms|, i requires 0 <= i < |ms| => RequestOf(ms[i]))
  }

  /** Request `i` of the serial run. */
  function SerialServed(rs: seq<Request>, i: nat, fs: Filesystem): Served
    requires i < |rs|
  {
    Serve(SerialTable(rs[..i], fs), i, rs[i], fs)
  }

  lemma SerialNext(rs: seq<Request>, i: nat, fs: Filesystem)
    requires i < |rs|
    ensures SerialTable(rs[..i + 1], fs) == SerialServed(rs, i, fs).table
  {
    assert rs[..i + 1][..i] == rs[..i];
  }

  /** A request leaves every entry outside its write set alone. */
  lemma ServeFrame(t: Table, i: nat, r: Request, fs: Filesystem, k: u32)
    requires k !in Writes(r) || Serve(t, i, r, fs).outcome.Failed?
    ensures Get(Serve(t, i, r, fs).table, k) == Get(t, k)
  {
  }

  /** Requests depend only on the entries they touch. */
  lemma LookFrame(t: Table, u: Table, r: Request)
    requires forall k :: k in Touches(r) ==> Get(t, k) == Get(u, k)
    ensures Look(t, r) == Look(u, r)
  {
    var ks := r.lookups;
    forall k | 0 <= k < |ks| ensures Get(t, ks[k]) == Get(u, ks[k]) {
      assert ks[k] in Touches(r);
    }
  }

  lemma UpdateFrame(t: Table, u: Table, i: nat, r: Request, k: u32)
    requires k in Writes(r) || Get(t, k) == Get(u, k)
    ensures Get(Update(t, i, r), k) == Get(Update(u, i, r), k)
  {
  }

  /** The shared table of srv.rs, served by one task with nobody else around. */
  class FidTable {
    var fids: map<u32, Fid>

    constructor ()
      ensures fids == map[]
    {
      fids := map[];
    }

    /** The lookups of one arm: each fid in turn, stopping at the first that is not bound. */
    method GetFids(ks: seq<u32>) returns (found: Result<seq<Fid>, u32>)
      ensures found.Ok? <==> forall k | 0 <= k < |ks| :: ks[k] in fids
      ensures found.Ok? ==> |found.value| == |ks| && forall k | 0 <= k < |ks| :: found.value[k] == fids[ks[k]]
      ensures found.Err? ==> found.error == EBADF
    {
      var got := [];
      for k := 0 to |ks|
        invariant |got| == k
        invariant forall j | 0 <= j < k :: ks[j] in fids && got[j] == fids[ks[j]]
      {
        if ks[k] !in fids {
          return Err(EBADF);
        }
        got := got + [fids[ks[k]]];
      }
      return Ok(got);
    }

    /** `dispatch_once`. */
    method DispatchOnce(i: nat, msg: Msg, fs: Filesystem) returns (response: Outcome)
      modifies this
      ensures response == Serve(old(fids), i, RequestOf(msg), fs).outcome
      ensures fids == Serve(old(fids), i, RequestOf(msg), fs).table
    {
      var newfid := NewFid(msg.body);
      ghost var r := RequestOf(msg);
      if !Supported(msg.body) {
        return Failed(EOPNOTSUPP);
      }
      var found := GetFids(Lookups(msg.body));
      if found.Err? {
        return Failed(found.error);
      }
      assert Look(fids, r) == Found(found.value);
      response := fs(i, found.value);
      if response.Failed? {
        return;
      }
      if msg.body.Tclunk? {
        fids := fids - {msg.body.fid};
      }
      if newfid.Some? {
        fids := fids[newfid.value := Fid(newfid.value, i)];
      }
    }

    /** Serving a whole queue of messages with no concurrency is the serial reference. */
    method DispatchAll(ms: seq<Msg>, fs: Filesystem) returns (replies: seq<Outcome>)
      requires fids == map[]
      modifies this
      ensures fids == SerialTable(Requests(ms), fs)
      ensures |replies| == |ms|
      ensures forall i | 0 <= i < |ms| :: replies[i] == SerialServed(Requests(ms), i, fs).outcome
    {
      replies := [];
      ghost var rs := Requests(ms);
      for i := 0 to |ms|
        invariant fids == SerialTable(rs[..i], fs)
        invariant |replies| == i
        invariant forall j | 0 <= j < i :: replies[j] == SerialServed(rs, j, fs).outcome
      {
        var r := DispatchOnce(i, ms[i], fs);
        SerialNext(rs, i, fs);
        replies := replies + [r];
      }
      assert rs[..|ms|] == rs;
    }
  }
}
