// The read-only 9P file server over a CPIO archive (client/cpio9p.go): the name index, walks, and
// the linear scan that lists a directory.
module Cpio {
  import opened Wrappers
  import opened Text

  datatype Record = Record(name: string, mode: nat)

  datatype QidType = Symlink | Dir | Other(mode: nat)

  datatype Qid = Qid(typ: QidType, path: nat)

  datatype Fail = NoRecords | NotExist

  /** `info`: the type comes from the format bits of the mode, the path is the record's index. */
  function QidOf(recs: seq<Record>, i: nat): Qid
    requires i < |recs|
  {
    var format := (recs[i].mode / 0x1000) % 0x10;
    Qid(if format == 0xa then Symlink else if format == 0x4 then Dir else Other(recs[i].mode), i)
  }

  /** The index of the last record of that name. */
  function LastIndex(recs: seq<Record>, name: string): (r: Option<nat>)
    ensures r.Some? ==> r.value < |recs|
  {
    if recs == [] then None
    else if recs[|recs| - 1].name == name then Some(|recs| - 1)
    else LastIndex(recs[..|recs| - 1], name)
  }

  lemma {:induction false} LastIndexIs(recs: seq<Record>, name: string)
    ensures var r := LastIndex(recs, name);
            if r.None? then forall i | 0 <= i < |recs| :: recs[i].name != name
            else r.value < |recs| && recs[r.value].name == name
                 && forall i | r.value < i < |recs| :: recs[i].name != name
  {
    if recs != [] && recs[|recs| - 1].name != name {
      LastIndexIs(recs[..|recs| - 1], name);
    }
  }

  /** The map holds exactly the names of the records, each with its last index. */
  ghost predicate Indexes(m: map<string, nat>, recs: seq<Record>) {
    forall n :: (n in m <==> LastIndex(recs, n).Some?) && (n in m ==> LastIndex(recs, n) == Some(m[n]))
  }

  // ----- walks -----

  /** The path a walk from record `at` starts with. */
  function Start(recs: seq<Record>, at: nat): string
    requires at < |recs|
  {
    if recs[at].name != "." then recs[at].name else ""
  }

  type Walked = Result<(seq<Qid>, nat), Fail>

  /** Each name extends the cleaned path, which must be the name of a record. */
  function Steps(recs: seq<Record>, full: string, at: nat, names: seq<string>): (w: Walked)
    requires at < |recs|
    ensures w.Ok? ==> |w.value.0| == |names| && w.value.1 < |recs|
    decreases |names|
  {
    if names == [] then Ok(([], at))
    else
      var next := PathJoin(full, names[0]);
      match LastIndex(recs, next)
      case None => Err(NotExist)
      case Some(i) =>
        var (qids, last) :- Steps(recs, next, i, names[1..]);
        Ok(([QidOf(recs, i)] + qids, last))
  }

  /** `Walk`: an empty list of names gives the qid of the starting point itself. */
  function WalkFrom(recs: seq<Record>, at: nat, names: seq<string>): (w: Walked)
    requires at < |recs|
    ensures w.Ok? ==> w.value.1 < |recs|
  {
    if names == [] then Ok(([QidOf(recs, at)], at))
    else Steps(recs, Start(recs, at), at, names)
  }

  /** The outcome of a walk that already passed the files `qids`. */
  function Prepend(qids: seq<Qid>, w: Walked): Walked {
    match w
    case Ok((qs, at)) => Ok((qids + qs, at))
    case Err(e) => Err(e)
  }

  lemma PrependNothing(w: Walked)
    ensures Prepend([], w) == w
  {
    if w.Ok? {
      assert [] + w.value.0 == w.value.0;
    }
  }

  lemma PrependTwice(qids: seq<Qid>, q: Qid, w: Walked)
    ensures Prepend(qids, Prepend([q], w)) == Prepend(qids + [q], w)
  {
    if w.Ok? {
      assert qids + ([q] + w.value.0) == qids + [q] + w.value.0;
    }
  }

  lemma StepsNext(recs: seq<Record>, full: string, at: nat, names: seq<string>, i: nat, qids: seq<Qid>)
    requires at < |recs| && i < |names|
    ensures var next := PathJoin(full, names[i]);
            match LastIndex(recs, next)
            case None => Prepend(qids, Steps(recs, full, at, names[i..])) == Err(NotExist)
            case Some(ix) =>
              && ix < |recs|
              && Prepend(qids, Steps(recs, full, at, names[i..]))
                 == Prepend(qids + [QidOf(recs, ix)], Steps(recs, next, ix, names[i + 1..]))
  {
    var next := PathJoin(full, names[i]);
    LastIndexIs(recs, next);
    assert names[i..][1..] == names[i + 1..];
    if LastIndex(recs, next).Some? {
      var ix := LastIndex(recs, next).value;
      PrependTwice(qids, QidOf(recs, ix), Steps(recs, next, ix, names[i + 1..]));
    }
  }

  // ----- the scan -----

  /** What the scan makes of a record: it has no relative path, one with a slash, or one without. */
  datatype Sight = Blocked | Deep | Near

  function See(dir: string, name: string): Sight {
    match Rel(dir, name)
    case None => Blocked
    case Some(b) => if HasDir(b) then Deep else Near
  }

  function Sights(recs: seq<Record>, dir: string): seq<Sight> {
    seq(|recs|, i requires 0 <= i < |recs| => See(dir, recs[i].name))
  }

  /** The scan of `readdir` from index `i` on: it keeps the near records and stops at a blocked one. */
  function Scan(sights: seq<Sight>, i: nat): (l: seq<nat>)
    requires i <= |sights|
    ensures forall k | 0 <= k < |l| :: i <= l[k] < |sights|
    decreases |sights| - i
  {
    if i == |sights| || sights[i] == Blocked then []
    else if sights[i] == Deep then Scan(sights, i + 1)
    else [i] + Scan(sights, i + 1)
  }

  function Listing(recs: seq<Record>, at: nat): seq<nat>
    requires at < |recs|
  {
    Scan(Sights(recs, recs[at].name), at + 1)
  }

  lemma ScanNext(sights: seq<Sight>, i: nat, list: seq<nat>)
    requires i < |sights| && sights[i] != Blocked
    ensures list + Scan(sights, i) == (if sights[i] == Deep then list else list + [i]) + Scan(sights, i + 1)
  {
    if sights[i] == Near {
      assert list + ([i] + Scan(sights, i + 1)) == list + [i] + Scan(sights, i + 1);
    }
  }

  // ----- the server -----

  class Archive {
    const recs: seq<Record>
    var m: map<string, nat>

    ghost predicate Valid()
      reads this
    {
      recs != [] && Indexes(m, recs)
    }

    /** The constructor's loop over the records; later records replace earlier ones. */
    constructor (records: seq<Record>)
      requires records != []
      ensures Valid() && recs == records
    {
      recs := records;
      new;
      m := map[];
      for i := 0 to |records|
        invariant Indexes(m, records[..i])
      {
        m := m[records[i].name := i];
        assert records[..i + 1][..i] == records[..i];
      }
      assert records[..|records|] == records;
    }

    /** `NewCPIO9PReaderAt`, after the records were read. */
    static method New(records: seq<Record>) returns (r: Result<Archive, Fail>)
      ensures records == [] ==> r == Err(NoRecords)
      ensures records != [] ==> r.Ok? && fresh(r.value) && r.value.Valid() && r.value.recs == records
    {
      if records == [] {
        return Err(NoRecords);
      }
      var a := new Archive(records);
      r := Ok(a);
    }

    method Attach() returns (fid: Fid)
      requires Valid()
      ensures fresh(fid) && fid.Valid() && fid.archive == this && fid.path == 0
    {
      fid := new Fid(this, 0);
    }
  }

  class Fid {
    const archive: Archive
    var path: nat

    /** The fid points at a record: the case in which `rec` neither fails nor runs off the slice. */
    ghost predicate Valid()
      reads this, archive
    {
      archive.Valid() && path < |archive.recs|
    }

    constructor (a: Archive, p: nat)
      requires a.Valid() && p < |a.recs|
      ensures Valid() && archive == a && path == p
    {
      archive := a;
      path := p;
    }

    /** `Walk`. A fid it returns is valid again, so the bounds check of `rec` never matters. */
    method Walk(names: seq<string>) returns (qids: seq<Qid>, r: Result<Fid, Fail>)
      requires Valid()
      ensures match WalkFrom(archive.recs, path, names)
              case Ok((qs, at)) =>
                r.Ok? && qids == qs && r.value.Valid() && r.value.archive == archive && r.value.path == at
              case Err(e) => qids == [] && r == Err(e)
    {
      var last := new Fid(archive, path);
      qids := [];
      if names == [] {
        return [QidOf(archive.recs, last.path)], Ok(last);
      }
      var full := Start(archive.recs, path);
      PrependNothing(Steps(archive.recs, full, last.path, names));
      assert names[0..] == names;
      for i := 0 to |names|
        invariant last.Valid() && last.archive == archive && fresh(last)
        invariant WalkFrom(archive.recs, path, names)
               == Prepend(qids, Steps(archive.recs, full, last.path, names[i..]))
      {
        StepsNext(archive.recs, full, last.path, names, i, qids);
        full := PathJoin(full, names[i]);
        if full !in archive.m {
          return [], Err(NotExist);
        }
        var ix := archive.m[full];
        qids := qids + [QidOf(archive.recs, ix)];
        last.path := ix;
      }
      assert qids + [] == qids;
      r := Ok(last);
    }

    /** `readdir`. */
    method ReadDir() returns (list: seq<nat>)
      requires Valid()
      ensures list == Listing(archive.recs, path)
    {
      list := ScanNames(archive.recs, archive.recs[path].name, path + 1);
    }
  }

  /** The loop of `readdir`. */
  method ScanNames(recs: seq<Record>, dn: string, start: nat) returns (list: seq<nat>)
    requires start <= |recs|
    ensures list == Scan(Sights(recs, dn), start)
  {
    ghost var sights := Sights(recs, dn);
    list := [];
    var i := start;
    while i < |recs|
      invariant start <= i <= |recs|
      invariant Scan(sights, start) == list + Scan(sights, i)
    {
      var sight := See(dn, recs[i].name);
      if sight == Blocked {
        break;
      }
      ScanNext(sights, i, list);
      if sight == Near {
        list := list + [i];
      }
      i := i + 1;
    }
    assert list + [] == list;
  }
}
