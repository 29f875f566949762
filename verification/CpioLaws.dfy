// What the CPIO file server promises: walks compose, and the name index agrees with the linear scan
// on every archive that is a tree of clean names.
module CpioLaws {
  import opened Wrappers
  import opened Text
  import opened Cpio
  import TextLaws

  // ----- walks compose -----

  /** A walk of `a`, then of `b` from the record it reached. */
  function Then(recs: seq<Record>, at: nat, a: seq<string>, b: seq<string>): Walked
    requires at < |recs|
  {
    var (qids, mid) :- WalkFrom(recs, at, a);
    Prepend(qids, WalkFrom(recs, mid, b))
  }

  /** A name for which it makes no difference whether the path before it is "." or empty. */
  predicate Relative(name: string) {
    name != "" && !Rooted(name)
  }

  lemma JoinAtRoot(name: string)
    requires Relative(name)
    ensures PathJoin(".", name) == PathJoin("", name)
  {
    assert "." + "/" + name == "." + ['/'] + name;
    SplitAt(".", '/', name);
    SplitNothing(".", '/');
    assert (["."] + Split(name, '/'))[1..] == Split(name, '/');
  }

  /** A walk that gets to the end of `a` goes on from the full path it reached, which is the name of
      the record there. */
  lemma {:induction false} StepsAppend(recs: seq<Record>, full: string, at: nat, a: seq<string>, b: seq<string>)
    requires at < |recs| && a != []
    ensures match Steps(recs, full, at, a)
            case Err(e) => Steps(recs, full, at, a + b) == Err(e)
            case Ok((qids, last)) =>
              Steps(recs, full, at, a + b) == Prepend(qids, Steps(recs, recs[last].name, last, b))
    decreases |a|
  {
    var next := PathJoin(full, a[0]);
    LastIndexIs(recs, next);
    assert (a + b)[0] == a[0] && (a + b)[1..] == a[1..] + b;
    match LastIndex(recs, next)
    case None =>
    case Some(i) =>
      if |a| == 1 {
        assert a[1..] + b == b;
        StepsOne(recs, full, at, a);
      } else {
        StepsAppend(recs, next, i, a[1..], b);
        match Steps(recs, next, i, a[1..])
        case Err(_) =>
        case Ok((qids, last)) =>
          PrependTwice([], QidOf(recs, i), Steps(recs, recs[last].name, last, b));
          PrependAgain(QidOf(recs, i), qids, Steps(recs, recs[last].name, last, b));
      }
  }

  lemma StepsOne(recs: seq<Record>, full: string, at: nat, a: seq<string>)
    requires at < |recs| && |a| == 1
    ensures Steps(recs, full, at, a) == match LastIndex(recs, PathJoin(full, a[0]))
                                        case None => Err(NotExist)
                                        case Some(i) => Ok(([QidOf(recs, i)], i))
  {
    assert a[1..] == [];
    forall q: Qid ensures [q] + [] == [q] {
    }
  }

  lemma PrependAgain(q: Qid, qids: seq<Qid>, w: Walked)
    ensures Prepend([q], Prepend(qids, w)) == Prepend([q] + qids, w)
  {
    if w.Ok? {
      assert [q] + (qids + w.value.0) == [q] + qids + w.value.0;
    }
  }

  /** Walking on from a record is walking on from its name, if that is not "." or the name is relative. */
  lemma WalkOn(recs: seq<Record>, at: nat, b: seq<string>)
    requires at < |recs| && b != []
    requires recs[at].name != "." || Relative(b[0])
    ensures WalkFrom(recs, at, b) == Steps(recs, recs[at].name, at, b)
  {
    if recs[at].name == "." {
      JoinAtRoot(b[0]);
    }
  }

  /** Walks compose, with their qids, in every archive, for names that include "..": unless the first
      walk ends at "." and the second begins with an empty or rooted name. */
  lemma WalksCompose(recs: seq<Record>, at: nat, a: seq<string>, b: seq<string>)
    requires at < |recs| && a != [] && b != []
    requires match WalkFrom(recs, at, a)
             case Ok((_, mid)) => recs[mid].name != "." || Relative(b[0])
             case Err(_) => true
    ensures Then(recs, at, a, b) == WalkFrom(recs, at, a + b)
  {
    StepsAppend(recs, Start(recs, at), at, a, b);
    match WalkFrom(recs, at, a)
    case Err(_) =>
    case Ok((_, mid)) => WalkOn(recs, mid, b);
  }

  ghost predicate AlwaysCompose(b: seq<string>)
    requires b != []
  {
    forall recs: seq<Record>, at: nat, a: seq<string> | at < |recs| && a != [] ::
      Then(recs, at, a, b) == WalkFrom(recs, at, a + b)
  }

  /** The paths a walk looks up. */
  function Lookups(full: string, names: seq<string>): seq<string>
    decreases |names|
  {
    if names == [] then []
    else [PathJoin(full, names[0])] + Lookups(PathJoin(full, names[0]), names[1..])
  }

  function Files(names: seq<string>): seq<Record> {
    seq(|names|, i requires 0 <= i < |names| => Record(names[i], 0))
  }

  lemma {:induction false} LookupsSucceed(recs: seq<Record>, full: string, at: nat, names: seq<string>)
    requires at < |recs|
    requires forall n | n in Lookups(full, names) :: LastIndex(recs, n).Some?
    ensures Steps(recs, full, at, names).Ok?
    decreases |names|
  {
    if names != [] {
      var next := PathJoin(full, names[0]);
      LookupsSucceed(recs, next, LastIndex(recs, next).value, names[1..]);
    }
  }

  lemma CleanIsRelative(p: string)
    requires !Rooted(p)
    ensures Relative(Clean(p))
  {
    var cs := Elements(p);
    TextLaws.ElementsAreNormal(p);
    if cs != [] {
      assert TextLaws.NormalAt(false, cs, 0);
      JoinStarts(cs, "/");
    }
  }

  lemma JoinStarts(cs: seq<string>, sep: string)
    requires cs != [] && cs[0] != ""
    ensures Join(cs, sep) != "" && Join(cs, sep)[0] == cs[0][0]
  {
  }

  lemma {:induction false} LookupsAreRelative(full: string, names: seq<string>)
    requires Relative(full)
    ensures forall n | n in Lookups(full, names) :: Relative(n)
    decreases |names|
  {
    if names != [] {
      assert full + "/" + names[0] != "" && (full + "/" + names[0])[0] == full[0];
      CleanIsRelative(full + "/" + names[0]);
      LookupsAreRelative(PathJoin(full, names[0]), names[1..]);
    }
  }

  lemma FilesHold(names: seq<string>, n: string)
    ensures LastIndex(Files(names), n).Some? <==> n in names
  {
    LastIndexIs(Files(names), n);
    if n in names {
      var i :| 0 <= i < |names| && names[i] == n;
      assert Files(names)[i].name == n;
    }
  }

  lemma CleanDot()
    ensures Clean(".") == "." && PathJoin("", ".") == "."
  {
    SplitNothing(".", '/');
  }

  /** An archive in which a walk by "." and then by `b` fails, while the joined walk succeeds. */
  lemma ComposeWitness(b: seq<string>)
    requires b != [] && !Relative(b[0])
    ensures !AlwaysCompose(b)
  {
    var names := ["."] + Lookups(".", b);
    var recs := Files(names);
    CleanDot();
    LookupsAreRelative(".", b);
    forall n | n in Lookups(".", ["."] + b) ensures LastIndex(recs, n).Some? {
      DotFirst(b);
      FilesHold(names, n);
    }
    DotFirst(b);
    FromTheRoot(recs, ["."] + b);
    LookupsSucceed(recs, ".", 0, ["."] + b);
    FilesHold(names, ".");
    FromTheRoot(recs, ["."]);
    StepsOne(recs, ".", 0, ["."]);
    assert WalkFrom(recs, 0, ["."]).Ok?;
    var mid := WalkFrom(recs, 0, ["."]).value.1;
    LastIndexIs(recs, ".");
    var first := PathJoin("", b[0]);
    FirstIsMissing(b[0]);
    FilesHold(names, first);
    assert Then(recs, 0, ["."], b) != WalkFrom(recs, 0, ["."] + b);
  }

  lemma DotFirst(b: seq<string>)
    ensures Lookups(".", ["."] + b) == ["."] + Lookups(".", b)
  {
    assert (["."] + b)[1..] == b;
    JoinAtRoot(".");
    CleanDot();
  }

  lemma FromTheRoot(recs: seq<Record>, names: seq<string>)
    requires recs != [] && recs[0].name == "." && names != [] && names[0] == "."
    ensures WalkFrom(recs, 0, names) == Steps(recs, ".", 0, names)
  {
    JoinAtRoot(".");
  }

  lemma FirstIsMissing(name: string)
    requires !Relative(name)
    ensures !Relative(PathJoin("", name))
  {
  }

  /** Exactly the relative names can begin a second walk without changing what the two walks reach. */
  lemma WalksComposeExactly(b: seq<string>)
    requires b != []
    ensures AlwaysCompose(b) <==> b[0] != "" && b[0][0] != '/'
  {
    if Relative(b[0]) {
      forall recs: seq<Record>, at: nat, a: seq<string> | at < |recs| && a != []
        ensures Then(recs, at, a, b) == WalkFrom(recs, at, a + b)
      {
        WalksCompose(recs, at, a, b);
      }
    } else {
      ComposeWitness(b);
    }
  }
}
