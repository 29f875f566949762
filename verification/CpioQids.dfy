// The qids that a walk of the archive server returns (client/cpio9p.go): each tells the record it stands
// for, so no two records share one.
module CpioQids {
  import opened Wrappers
  import opened Text
  import opened Cpio

  /** The path after `k` names of a walk from a path. */
  function PathAfter(base: string, names: seq<string>, k: nat): string
    requires k <= |names|
  {
    if k == 0 then base else PathJoin(PathAfter(base, names, k - 1), names[k - 1])
  }

  /** Record `i` is the last one of that name. */
  ghost predicate IsLast(recs: seq<Record>, name: string, i: nat) {
    i < |recs| && recs[i].name == name && forall j | i < j < |recs| :: recs[j].name != name
  }

  ghost predicate IsNone(recs: seq<Record>, name: string) {
    forall i | 0 <= i < |recs| :: recs[i].name != name
  }

  /** The qid of a record: its place in the archive, and the type that the format bits of its mode say -
      0xa000 for a symbolic link, 0x4000 for a directory. */
  predicate Describes(q: Qid, r: Record, i: nat) {
    && q.path == i
    && (q.typ.Symlink? <==> 0xa000 <= r.mode % 0x1_0000 < 0xb000)
    && (q.typ.Dir? <==> 0x4000 <= r.mode % 0x1_0000 < 0x5000)
    && (q.typ.Other? ==> q.typ.mode == r.mode)
  }

  lemma QidDescribes(recs: seq<Record>, i: nat)
    requires i < |recs|
    ensures Describes(QidOf(recs, i), recs[i], i)
  {
    var m := recs[i].mode;
    assert m / 0x1000 % 0x10 == m % 0x1_0000 / 0x1000;
  }

  lemma {:induction false} PathShift(base: string, names: seq<string>, k: nat)
    requires k < |names|
    ensures PathAfter(base, names, k + 1) == PathAfter(PathJoin(base, names[0]), names[1..], k)
  {
    if k > 0 {
      PathShift(base, names, k - 1);
      assert names[1..][k - 1] == names[k];
    }
  }

  /** The `k`th qid of a walk stands for the path after `k + 1` names. */
  ghost predicate Stands(recs: seq<Record>, base: string, names: seq<string>, qids: seq<Qid>, k: nat)
    requires k < |qids| <= |names|
  {
    && IsLast(recs, PathAfter(base, names, k + 1), qids[k].path)
    && Describes(qids[k], recs[qids[k].path], qids[k].path)
  }

  /** What a walk by steps returns: for each name the qid of the last record of the path so far. */
  ghost predicate Reaches(recs: seq<Record>, base: string, names: seq<string>, w: Walked) {
    match w
    case Ok((qids, last)) =>
      && |qids| == |names|
      && (forall k | 0 <= k < |qids| :: Stands(recs, base, names, qids, k))
      && (qids != [] ==> last == qids[|qids| - 1].path)
    case Err(e) =>
      && e == NotExist
      && exists k | 0 < k <= |names| :: IsNone(recs, PathAfter(base, names, k))
  }

  lemma StandsLater(recs: seq<Record>, base: string, names: seq<string>, q: Qid, qs: seq<Qid>, k: nat)
    requires 0 < k <= |qs| < |names|
    requires Stands(recs, PathJoin(base, names[0]), names[1..], qs, k - 1)
    ensures Stands(recs, base, names, [q] + qs, k)
  {
    PathShift(base, names, k);
  }

  lemma StandsFirst(recs: seq<Record>, base: string, names: seq<string>, i: nat, qs: seq<Qid>)
    requires |qs| < |names| && IsLast(recs, PathJoin(base, names[0]), i)
    ensures Stands(recs, base, names, [QidOf(recs, i)] + qs, 0)
  {
    QidDescribes(recs, i);
    assert PathAfter(base, names, 1) == PathJoin(PathAfter(base, names, 0), names[0]);
  }

  lemma Found(recs: seq<Record>, base: string, names: seq<string>, i: nat, qs: seq<Qid>, last: nat)
    requires names != [] && IsLast(recs, PathJoin(base, names[0]), i)
    requires Reaches(recs, PathJoin(base, names[0]), names[1..], Ok((qs, last))) && (qs == [] ==> last == i)
    ensures Reaches(recs, base, names, Ok(([QidOf(recs, i)] + qs, last)))
  {
    StandsFirst(recs, base, names, i, qs);
    forall k | 0 < k <= |qs| ensures Stands(recs, base, names, [QidOf(recs, i)] + qs, k) {
      assert Stands(recs, PathJoin(base, names[0]), names[1..], qs, k - 1);
      StandsLater(recs, base, names, QidOf(recs, i), qs, k);
    }
  }

  lemma FailsLater(recs: seq<Record>, base: string, names: seq<string>, e: Fail)
    requires names != [] && Reaches(recs, PathJoin(base, names[0]), names[1..], Err(e))
    ensures Reaches(recs, base, names, Err(e))
  {
    var k :| 0 < k <= |names[1..]| && IsNone(recs, PathAfter(PathJoin(base, names[0]), names[1..], k));
    PathShift(base, names, k);
  }

  lemma {:induction false} StepsReach(recs: seq<Record>, base: string, at: nat, names: seq<string>)
    requires at < |recs|
    ensures Reaches(recs, base, names, Steps(recs, base, at, names))
    decreases |names|
  {
    if names != [] {
      var next := PathJoin(base, names[0]);
      LastIndexIs(recs, next);
      PathShift(base, names, 0);
      match LastIndex(recs, next)
      case None =>
      case Some(i) =>
        StepsReach(recs, next, i, names[1..]);
        match Steps(recs, next, i, names[1..])
        case Ok((qs, last)) => Found(recs, base, names, i, qs, last);
        case Err(e) => FailsLater(recs, base, names, e);
    }
  }

  /** In every archive and from every record: a walk succeeds exactly if each path on the way is the name
      of a record, and gives for each name the qid of the last record of that path. An empty walk gives
      the qid of the start. The start is the name of the record, or nothing for ".". */
  lemma WalkReaches(recs: seq<Record>, at: nat, names: seq<string>)
    requires at < |recs|
    ensures names == [] ==>
              var w := WalkFrom(recs, at, names);
              w.Ok? && w.value.1 == at && |w.value.0| == 1 && Describes(w.value.0[0], recs[at], at)
    ensures names != [] ==>
              Reaches(recs, if recs[at].name == "." then "" else recs[at].name, names, WalkFrom(recs, at, names))
  {
    QidDescribes(recs, at);
    StepsReach(recs, Start(recs, at), at, names);
  }

  /** Different records have different qids: two walks that return the same last qid reached the same one. */
  lemma SameQidSameRecord(recs: seq<Record>, at: nat, names: seq<string>, at': nat, names': seq<string>)
    requires at < |recs| && at' < |recs| && WalkFrom(recs, at, names).Ok? && WalkFrom(recs, at', names').Ok?
    ensures var (qs, i) := WalkFrom(recs, at, names).value;
            var (qs', i') := WalkFrom(recs, at', names').value;
            qs != [] && qs' != [] && (qs[|qs| - 1] == qs'[|qs'| - 1] <==> i == i')
  {
    WalkReaches(recs, at, names);
    WalkReaches(recs, at', names');
    LastQid(recs, at, names);
    LastQid(recs, at', names');
  }

  lemma LastQid(recs: seq<Record>, at: nat, names: seq<string>)
    requires at < |recs| && WalkFrom(recs, at, names).Ok?
    ensures var (qs, i) := WalkFrom(recs, at, names).value;
            qs != [] && i < |recs| && qs[|qs| - 1] == QidOf(recs, i)
  {
    if names != [] {
      StepsLast(recs, Start(recs, at), at, names);
    }
  }

  lemma {:induction false} StepsLast(recs: seq<Record>, base: string, at: nat, names: seq<string>)
    requires at < |recs| && names != [] && Steps(recs, base, at, names).Ok?
    ensures var (qs, i) := Steps(recs, base, at, names).value;
            qs != [] && i < |recs| && qs[|qs| - 1] == QidOf(recs, i)
    decreases |names|
  {
    var next := PathJoin(base, names[0]);
    var i := LastIndex(recs, next).value;
    if |names| > 1 {
      StepsLast(recs, next, i, names[1..]);
    }
  }
}
