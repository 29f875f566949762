// The file server over the host's file system (unpfs.rs): fids hold paths, and a walk pushes names
// onto a path as long as they resolve.
module Unpfs {
  import opened Wrappers
  import opened Protocol

  type Errno = nat

  /** The files of the host: the qid of every path that resolves, and the error of the others. */
  datatype Host = Host(qids: map<string, Qid>, errors: map<string, Errno>)

  function GetQid(h: Host, path: string): Result<Qid, Errno> {
    if path in h.qids then Ok(h.qids[path])
    else Err(if path in h.errors then h.errors[path] else 2)
  }

  predicate Resolves(h: Host, path: string) {
    path in h.qids
  }

  /** `PathBuf::push`: an absolute name replaces the path. */
  function Push(path: string, name: string): string {
    if name != "" && name[0] == '/' then name
    else if path != "" && path[|path| - 1] != '/' then path + "/" + name
    else path + name
  }

  function PushAll(path: string, names: seq<string>): string {
    if names == [] then path else Push(PushAll(path, names[..|names| - 1]), names[|names| - 1])
  }

  /** The paths a walk goes through. */
  function Paths(path: string, names: seq<string>): seq<string> {
    seq(|names|, i requires 0 <= i < |names| => PushAll(path, names[..i + 1]))
  }

  /** The qids of paths, as long as they resolve. */
  function Qids(h: Host, paths: seq<string>): (qids: seq<Qid>)
    ensures |qids| <= |paths|
  {
    if paths == [] || !Resolves(h, paths[0]) then []
    else [h.qids[paths[0]]] + Qids(h, paths[1..])
  }

  function Resolved(h: Host, path: string, names: seq<string>): (qids: seq<Qid>)
    ensures |qids| <= |names|
  {
    Qids(h, Paths(path, names))
  }

  /** How many names a walk pushes: those that resolve and the first that does not. */
  function Pushed(h: Host, path: string, names: seq<string>): (k: nat)
    ensures k <= |names|
  {
    var k := |Resolved(h, path, names)|;
    if k < |names| then k + 1 else k
  }

  function Walk(h: Host, path: string, names: seq<string>): Result<(seq<Qid>, string), Errno> {
    var qids := Resolved(h, path, names);
    if names != [] && qids == [] then Err(GetQid(h, Paths(path, names)[0]).error)
    else Ok((qids, PushAll(path, names[..Pushed(h, path, names)])))
  }

  class Fid {
    var realpath: string

    constructor ()
      ensures realpath == ""
    {
      realpath := "";
    }
  }

  class Server {
    const realroot: string
    const host: Host

    constructor (root: string, h: Host)
      ensures realroot == root && host == h
    {
      realroot, host := root, h;
    }

    /** `rattach`: the path is set whether or not the root resolves. */
    method Attach(fid: Fid) returns (r: Result<Qid, Errno>)
      modifies fid
      ensures fid.realpath == realroot
      ensures r == GetQid(host, realroot)
    {
      fid.realpath := realroot;
      r := GetQid(host, realroot);
    }

    /** `rwalk`. The two fids may be the same object. */
    method WalkTo(fid: Fid, newfid: Fid, wnames: seq<string>) returns (r: Result<seq<Qid>, Errno>)
      modifies newfid
      ensures match Walk(host, old(fid.realpath), wnames)
              case Ok((qids, path)) => r == Ok(qids) && newfid.realpath == path
              case Err(e) => r == Err(e) && newfid.realpath == old(newfid.realpath)
    {
      var qids, path, failed := PushNames(host, fid.realpath, wnames);
      if failed.Some? {
        return Err(failed.value);
      }
      newfid.realpath := path;
      r := Ok(qids);
    }
  }

  lemma PathsNext(path: string, names: seq<string>, i: nat)
    requires i < |names|
    ensures Paths(path, names)[i] == Push(PushAll(path, names[..i]), names[i])
  {
    assert names[..i + 1][..i] == names[..i];
  }

  lemma QidsNext(h: Host, paths: seq<string>, i: nat, done: seq<Qid>)
    requires i < |paths|
    ensures done + Qids(h, paths[i..])
         == if Resolves(h, paths[i]) then done + [h.qids[paths[i]]] + Qids(h, paths[i + 1..]) else done
  {
    assert paths[i..][1..] == paths[i + 1..];
    if Resolves(h, paths[i]) {
      var q, rest := h.qids[paths[i]], Qids(h, paths[i + 1..]);
      assert done + ([q] + rest) == done + [q] + rest;
    } else {
      assert done + [] == done;
    }
  }

  /** The loop of a walk after `i` names, all of which resolved. */
  ghost predicate Underway(h: Host, start: string, names: seq<string>, i: nat, qids: seq<Qid>, path: string) {
    && i <= |names| && |qids| == i
    && path == PushAll(start, names[..i])
    && Resolved(h, start, names) == qids + Qids(h, Paths(start, names)[i..])
  }

  lemma WalkBegins(h: Host, start: string, names: seq<string>)
    ensures Underway(h, start, names, 0, [], start)
  {
    assert names[..0] == [] && Paths(start, names)[0..] == Paths(start, names);
    assert [] + Resolved(h, start, names) == Resolved(h, start, names);
  }

  lemma WalkGoesOn(h: Host, start: string, names: seq<string>, i: nat, qids: seq<Qid>, path: string)
    requires i < |names| && Underway(h, start, names, i, qids, path)
    requires Resolves(h, Push(path, names[i]))
    ensures Underway(h, start, names, i + 1, qids + [h.qids[Push(path, names[i])]], Push(path, names[i]))
  {
    PathsNext(start, names, i);
    QidsNext(h, Paths(start, names), i, qids);
  }

  lemma WalkStops(h: Host, start: string, names: seq<string>, i: nat, qids: seq<Qid>, path: string)
    requires i < |names| && Underway(h, start, names, i, qids, path)
    requires !Resolves(h, Push(path, names[i]))
    ensures Walk(h, start, names) == if i == 0 then Err(GetQid(h, Push(path, names[i])).error)
                                     else Ok((qids, Push(path, names[i])))
  {
    PathsNext(start, names, i);
    QidsNext(h, Paths(start, names), i, qids);
    assert names[..i + 1][..i] == names[..i];
  }

  lemma WalkIsDone(h: Host, start: string, names: seq<string>, qids: seq<Qid>, path: string)
    requires Underway(h, start, names, |names|, qids, path)
    ensures Walk(h, start, names) == Ok((qids, path))
  {
    assert qids + [] == qids && names[..|names|] == names;
  }

  /** The loop of `rwalk`, which stops with an error only at the first name. */
  method PushNames(h: Host, start: string, wnames: seq<string>)
    returns (wqids: seq<Qid>, path: string, failed: Option<Errno>)
    ensures match Walk(h, start, wnames)
            case Ok((qids, at)) => wqids == qids && path == at && failed == None
            case Err(e) => failed == Some(e)
  {
    wqids, path, failed := [], start, None;
    WalkBegins(h, start, wnames);
    var i := 0;
    while i < |wnames|
      invariant Underway(h, start, wnames, i, wqids, path)
    {
      if Resolves(h, Push(path, wnames[i])) {
        WalkGoesOn(h, start, wnames, i, wqids, path);
      } else {
        WalkStops(h, start, wnames, i, wqids, path);
      }
      path := Push(path, wnames[i]);
      var qid := GetQid(h, path);
      if qid.Err? {
        if i == 0 {
          failed := Some(qid.error);
        }
        return;
      }
      wqids := wqids + [qid.value];
      i := i + 1;
    }
    WalkIsDone(h, start, wnames, wqids, path);
  }

  // ----- what a walk returns -----

  /** The qids of a walk are those of exactly the longest initial run of paths that resolve. */
  lemma {:induction false} LongestRun(h: Host, paths: seq<string>)
    ensures var qids := Qids(h, paths);
            && (forall k | 0 <= k < |qids| :: Resolves(h, paths[k]) && qids[k] == h.qids[paths[k]])
            && (|qids| < |paths| ==> !Resolves(h, paths[|qids|]))
  {
    if paths != [] {
      LongestRun(h, paths[1..]);
    }
  }

  /** A walk fails only when there is a first name and it does not resolve. */
  lemma WalkFailsAtFirst(h: Host, path: string, names: seq<string>)
    ensures Walk(h, path, names).Err? <==> names != [] && !Resolves(h, Push(path, names[0]))
  {
    if names != [] {
      PathsNext(path, names, 0);
      assert names[..0] == [];
    }
  }

  /** After a partial walk the new fid does not resolve: its path includes the name that failed. After
      a complete walk it does, at the path of all names. */
  lemma NewFidResolves(h: Host, path: string, names: seq<string>)
    requires Walk(h, path, names).Ok? && names != []
    ensures var (qids, at) := Walk(h, path, names).value;
            && (Resolves(h, at) <==> |qids| == |names|)
            && (|qids| == |names| ==> at == PushAll(path, names))
            && (|qids| < |names| ==> at == PushAll(path, names[..|qids| + 1]))
  {
    var k := |Resolved(h, path, names)|;
    LongestRun(h, Paths(path, names));
    assert names[..|names|] == names;
    if k == |names| {
      assert Resolves(h, Paths(path, names)[k - 1]);
    }
  }

  /** A walk of no names clones the fid. */
  lemma EmptyWalkClones(h: Host, path: string)
    ensures Walk(h, path, []) == Ok(([], path))
  {
    assert Resolved(h, path, []) == [];
    var none: seq<string> := [];
    assert none[..0] == none;
  }

  lemma {:induction false} PushAppend(path: string, a: seq<string>, b: seq<string>)
    ensures PushAll(path, a + b) == PushAll(PushAll(path, a), b)
    decreases |b|
  {
    if b == [] {
      assert a + b == a;
    } else {
      assert (a + b)[..|a + b| - 1] == a + b[..|b| - 1];
      PushAppend(path, a, b[..|b| - 1]);
    }
  }

  lemma {:induction false} QidsAppend(h: Host, p: seq<string>, q: seq<string>)
    requires |Qids(h, p)| == |p|
    ensures Qids(h, p + q) == Qids(h, p) + Qids(h, q)
  {
    if p == [] {
      assert p + q == q;
    } else {
      assert (p + q)[0] == p[0] && (p + q)[1..] == p[1..] + q;
      QidsAppend(h, p[1..], q);
    }
  }

  lemma PathsAppend(path: string, a: seq<string>, b: seq<string>)
    ensures Paths(path, a + b) == Paths(path, a) + Paths(PushAll(path, a), b)
  {
    forall i | 0 <= i < |a| ensures Paths(path, a + b)[i] == Paths(path, a)[i] {
      assert (a + b)[..i + 1] == a[..i + 1];
    }
    forall i | 0 <= i < |b| ensures Paths(path, a + b)[|a| + i] == Paths(PushAll(path, a), b)[i] {
      assert (a + b)[..|a| + i + 1] == a + b[..i + 1];
      PushAppend(path, a, b[..i + 1]);
    }
  }

  lemma ResolvedAppend(h: Host, path: string, a: seq<string>, b: seq<string>)
    requires |Resolved(h, path, a)| == |a|
    ensures Resolved(h, path, a + b) == Resolved(h, path, a) + Resolved(h, PushAll(path, a), b)
  {
    PathsAppend(path, a, b);
    QidsAppend(h, Paths(path, a), Paths(PushAll(path, a), b));
  }

  lemma PushedAppend(h: Host, path: string, a: seq<string>, b: seq<string>)
    requires |Resolved(h, path, a)| == |a|
    ensures Pushed(h, path, a + b) == |a| + Pushed(h, PushAll(path, a), b)
  {
    ResolvedAppend(h, path, a, b);
  }

  lemma PrefixOfSum(a: seq<string>, b: seq<string>, j: nat)
    requires j <= |b|
    ensures (a + b)[..|a| + j] == a + b[..j]
  {
  }

  lemma WalkEnds(h: Host, path: string, names: seq<string>, k: nat)
    requires k == Pushed(h, path, names) && Resolved(h, path, names) != []
    ensures Walk(h, path, names) == Ok((Resolved(h, path, names), PushAll(path, names[..k])))
  {
  }

  lemma WalkOn(h: Host, path: string, a: seq<string>, b: seq<string>)
    requires a != [] && |Resolved(h, path, a)| == |a|
    ensures var mid := PushAll(path, a);
            Walk(h, path, a + b)
            == Ok((Resolved(h, path, a) + Resolved(h, mid, b), PushAll(mid, b[..Pushed(h, mid, b)])))
  {
    var mid := PushAll(path, a);
    var j := Pushed(h, mid, b);
    ResolvedAppend(h, path, a, b);
    PushedAppend(h, path, a, b);
    WalkEnds(h, path, a + b, |a| + j);
    PrefixOfSum(a, b, j);
    PushAppend(path, a, b[..j]);
  }

  /** Walks compose: after a complete first walk, the second reaches what the joined walk reaches, and
      the qids of the two follow one another. A second walk that fails is a partial joined walk. */
  lemma WalksCompose(h: Host, path: string, a: seq<string>, b: seq<string>)
    requires a != [] && |Resolved(h, path, a)| == |a|
    ensures var mid := PushAll(path, a);
            && Walk(h, path, a) == Ok((Resolved(h, path, a), mid))
            && match Walk(h, mid, b)
               case Ok((qids, at)) => Walk(h, path, a + b) == Ok((Resolved(h, path, a) + qids, at))
               case Err(_) => Walk(h, path, a + b) == Ok((Resolved(h, path, a), PushAll(mid, b[..1])))
  {
    assert a[..|a|] == a;
    WalkOn(h, path, a, b);
    assert Resolved(h, path, a) + [] == Resolved(h, path, a);
  }

  function Slashed(names: seq<string>): string {
    if names == [] then "" else Slashed(names[..|names| - 1]) + "/" + names[|names| - 1]
  }

  /** What stands before the first slash of a walk: a path brings its own if it ends in one, and the
      empty path has none. */
  function Joined(path: string, names: seq<string>): string
    requires names != []
  {
    var tail := Slashed(names);
    if path == "" then (if tail == "" then "" else tail[1..])
    else if path[|path| - 1] == '/' then path[..|path| - 1] + tail
    else path + tail
  }

  lemma PushName(path: string, name: string)
    requires name != "" && '/' !in name
    ensures Push(path, name) == Joined(path, [name])
  {
    assert name[0] in name;
    assert [name][..0] == [];
    assert Slashed([name]) == "" + "/" + name == "/" + name;
    assert ("/" + name)[1..] == name;
    if path != "" && path[|path| - 1] == '/' {
      assert path == path[..|path| - 1] + "/";
      assert path[..|path| - 1] + ("/" + name) == path[..|path| - 1] + "/" + name;
    }
  }

  lemma PushOn(path: string, name: string)
    requires name != "" && '/' !in name
    ensures Push(path, name) != "" && Push(path, name)[|Push(path, name)| - 1] != '/'
    ensures path != "" && path[|path| - 1] != '/' ==> Push(path, name) == path + "/" + name
  {
    assert name[0] in name && name[|name| - 1] in name;
  }

  lemma JoinedSnoc(path: string, names: seq<string>, name: string)
    requires names != []
    ensures Joined(path, names + [name]) == Joined(path, names) + "/" + name
  {
    var tail := Slashed(names);
    assert (names + [name])[..|names|] == names;
    assert Slashed(names + [name]) == tail + "/" + name;
    assert tail != "";
    assert (tail + "/" + name)[1..] == tail[1..] + "/" + name;
    var base := if path != "" && path[|path| - 1] == '/' then path[..|path| - 1] else path;
    assert base + (tail + "/" + name) == base + tail + "/" + name;
  }

  /** A complete walk of names that are not empty and have no slash leaves the new fid at the joined
      path, from any path, also from the root. */
  lemma {:induction false} JoinedPath(path: string, names: seq<string>)
    requires names != [] && forall i | 0 <= i < |names| :: names[i] != "" && '/' !in names[i]
    ensures PushAll(path, names) == Joined(path, names)
    ensures PushAll(path, names) != "" && PushAll(path, names)[|PushAll(path, names)| - 1] != '/'
  {
    var n := |names| - 1;
    PushOn(PushAll(path, names[..n]), names[n]);
    if n == 0 {
      assert names == [names[0]] && names[..0] == [];
      PushName(path, names[0]);
    } else {
      JoinedPath(path, names[..n]);
      assert names == names[..n] + [names[n]];
      JoinedSnoc(path, names[..n], names[n]);
    }
  }

  /** An absolute name starts again: what was pushed before it does not matter. */
  lemma AbsoluteStartsAgain(path: string, a: seq<string>, name: string, b: seq<string>)
    requires name != "" && name[0] == '/'
    ensures PushAll(path, a + [name] + b) == PushAll(name, b)
  {
    PushAppend(path, a + [name], b);
    assert (a + [name])[..|a|] == a;
  }

  /** The qid of the root, or the error of a path that is not there: the host's, or 2 for a missing file. A
      walk that fails gives that of its first name. */
  lemma ErrorsAre(h: Host, path: string, names: seq<string>)
    ensures GetQid(h, path).Ok? <==> path in h.qids
    ensures path in h.qids ==> GetQid(h, path).value == h.qids[path]
    ensures path !in h.qids ==> GetQid(h, path).error == if path in h.errors then h.errors[path] else 2
    ensures Walk(h, path, names).Err? ==>
              names != [] &&
              var first := Push(path, names[0]);
              Walk(h, path, names).error == if first in h.errors then h.errors[first] else 2
  {
    if Walk(h, path, names).Err? {
      WalkFailsAtFirst(h, path, names);
      PathsNext(path, names, 0);
      assert names[..0] == [];
    }
  }
}
