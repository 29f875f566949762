// On an archive that holds a tree, the listing of a directory and one-name walks from it agree: the
// linear scan over names finds exactly the children that the name index can reach.
module CpioTree {
  import opened Wrappers
  import opened Text
  import opened Cpio
  import CpioLaws

  /** A relative path without empty, "." or ".." elements. */
  predicate Plain(name: string) {
    forall i | 0 <= i < |Split(name, '/')| :: Ordinary(Split(name, '/')[i])
  }

  /** The path from the root of the tree. */
  function Path(name: string): seq<string> {
    if name == "." then [] else Split(name, '/')
  }

  predicate IsChild(name: string, dir: string) {
    && |Path(name)| == |Path(dir)| + 1
    && Path(name)[..|Path(dir)|] == Path(dir)
  }

  /** The root comes first, names are distinct, and every directory comes before what is in it. */
  ghost predicate Tree(recs: seq<Record>) {
    && recs != [] && recs[0].name == "."
    && (forall i | 0 < i < |recs| :: Plain(recs[i].name))
    && (forall i, j | 0 <= i < j < |recs| :: recs[i].name != recs[j].name)
    && (forall i | 0 < i < |recs| :: HasParent(recs, i))
  }

  ghost predicate HasParent(recs: seq<Record>, i: nat)
    requires i < |recs|
  {
    exists p | 0 <= p < i :: IsChild(recs[i].name, recs[p].name)
  }

  predicate Named(name: string) {
    name == "." || Plain(name)
  }

  lemma NamedPaths(name: string)
    requires Named(name)
    ensures Elements(name) == Path(name) && !Rooted(name)
    ensures forall i | 0 <= i < |Path(name)| :: Ordinary(Path(name)[i])
    ensures Render(false, Path(name)) == name
  {
    SplitNothing(".", '/');
    JoinSplit(name, '/');
    if name != "." {
      assert Ordinary(Split(name, '/')[0]);
      ReduceOrdinary(Rooted(name), [], Split(name, '/'));
    }
  }

  lemma SamePath(a: string, b: string)
    requires Named(a) && Named(b) && Path(a) == Path(b)
    ensures a == b
  {
    NamedPaths(a);
    NamedPaths(b);
  }

  lemma TreeNames(recs: seq<Record>, i: nat)
    requires Tree(recs) && i < |recs|
    ensures Named(recs[i].name)
  {
  }

  /** The relative path between two named records has a slash unless it has at most one element. */
  lemma RelDepth(dir: string, name: string)
    requires Named(dir) && Named(name)
    ensures var k := CommonPrefix(Path(dir), Path(name));
            && Rel(dir, name).Some?
            && (HasDir(Rel(dir, name).value) <==> |Path(dir)| - k + (|Path(name)| - k) > 1)
  {
    NamedPaths(dir);
    NamedPaths(name);
    var way := Way(Path(dir), Path(name));
    forall i | 0 <= i < |way| ensures '/' !in way[i] {
    }
    JoinHasSeparator(way, '/');
  }

  /** Relative paths of at most one element: the record itself, its parent and its children. */
  lemma Nearby(dir: string, name: string)
    requires Named(dir) && Named(name)
    ensures var k := CommonPrefix(Path(dir), Path(name));
            |Path(dir)| - k + (|Path(name)| - k) <= 1
            <==> dir == name || IsChild(dir, name) || IsChild(name, dir)
  {
    var d, n := Path(dir), Path(name);
    var k := CommonPrefix(d, n);
    if |d| - k + (|n| - k) <= 1 {
      assert d[..|d|] == d && n[..|n|] == n;
      if |d| == k && |n| == k {
        SamePath(dir, name);
      }
    }
  }

  lemma ParentsComeFirst(recs: seq<Record>, i: nat, at: nat)
    requires Tree(recs) && i < |recs| && at < |recs|
    requires IsChild(recs[i].name, recs[at].name)
    ensures at < i
  {
    assert i != 0 by {
      assert Path(".") == [];
    }
    assert HasParent(recs, i);
    var p :| 0 <= p < i && IsChild(recs[i].name, recs[p].name);
    TreeNames(recs, p);
    TreeNames(recs, at);
    SamePath(recs[p].name, recs[at].name);
  }

  /** A record after `at` is near exactly when it is a child. */
  lemma NearIsChild(recs: seq<Record>, at: nat, i: nat)
    requires Tree(recs) && at < i < |recs|
    ensures See(recs[at].name, recs[i].name) == if IsChild(recs[i].name, recs[at].name) then Near else Deep
  {
    TreeNames(recs, at);
    TreeNames(recs, i);
    RelDepth(recs[at].name, recs[i].name);
    Nearby(recs[at].name, recs[i].name);
    if IsChild(recs[at].name, recs[i].name) {
      ParentsComeFirst(recs, at, i);
    }
  }

  predicate Increasing(l: seq<nat>) {
    forall k, n | 0 <= k < n < |l| :: l[k] < l[n]
  }

  lemma InCons(x: nat, l: seq<nat>)
    ensures forall i: nat :: i in [x] + l <==> i == x || i in l
  {
  }

  lemma {:induction false} ScanFinds(sights: seq<Sight>, from: nat)
    requires from <= |sights| && forall i | from <= i < |sights| :: sights[i] != Blocked
    ensures Increasing(Scan(sights, from))
    ensures forall i: nat :: i in Scan(sights, from) <==> from <= i < |sights| && sights[i] == Near
    decreases |sights| - from
  {
    if from < |sights| {
      ScanFinds(sights, from + 1);
      InCons(from, Scan(sights, from + 1));
    }
  }

  /** `readdir` returns the indices of the direct children, in increasing order. */
  lemma ListingIsChildren(recs: seq<Record>, at: nat)
    requires Tree(recs) && at < |recs|
    ensures forall i: nat :: i in Listing(recs, at) <==> i < |recs| && IsChild(recs[i].name, recs[at].name)
    ensures Increasing(Listing(recs, at))
  {
    var sights := Sights(recs, recs[at].name);
    forall i | at < i < |recs|
      ensures sights[i] == if IsChild(recs[i].name, recs[at].name) then Near else Deep
    {
      NearIsChild(recs, at, i);
    }
    ScanFinds(sights, at + 1);
    forall i: nat | i < |recs| && IsChild(recs[i].name, recs[at].name)
      ensures at < i
    {
      ParentsComeFirst(recs, i, at);
    }
  }

  lemma ChildPath(dir: string, x: string)
    requires Named(dir) && Ordinary(x)
    ensures var full := PathJoin(if dir != "." then dir else "", x);
            Plain(full) && Path(full) == Path(dir) + [x]
  {
    NamedPaths(dir);
    SplitNothing(x, '/');
    var cs := Path(dir) + [x];
    ReduceOrdinary(false, [], cs);
    assert [] + cs == cs;
    if dir != "." {
      assert dir + "/" + x == dir + ['/'] + x;
      SplitAt(dir, '/', x);
      assert !Rooted(dir + "/" + x) by {
        assert dir != "" && (dir + "/" + x)[0] == dir[0];
      }
      assert Elements(dir + "/" + x) == cs;
    } else {
      assert cs == [x];
    }
    SplitJoin(cs, '/');
    assert Join(cs, ['/']) != "." by {
      SplitNothing(".", '/');
    }
  }

  /** The last element of the path, "." for the root. */
  function LastName(name: string): string {
    var path := Path(name);
    if path == [] then "." else path[|path| - 1]
  }

  lemma Snoc(p: seq<string>, d: seq<string>, x: string)
    ensures |p| == |d| + 1 && p[..|d|] == d && p[|p| - 1] == x <==> p == d + [x]
  {
    if |p| == |d| + 1 {
      assert p == p[..|d|] + [p[|d|]];
    }
  }

  lemma ChildNamed(dir: string, x: string, name: string, full: string)
    requires Named(name) && Plain(full) && Path(full) == Path(dir) + [x]
    ensures IsChild(name, dir) && LastName(name) == x <==> name == full
  {
    Snoc(Path(name), Path(dir), x);
    if Path(name) == Path(full) {
      SamePath(name, full);
    }
  }

  lemma OneNameWalk(recs: seq<Record>, at: nat, x: string)
    requires Tree(recs) && at < |recs| && Ordinary(x)
    ensures var full := PathJoin(Start(recs, at), x);
            && Plain(full) && Path(full) == Path(recs[at].name) + [x]
            && match WalkFrom(recs, at, [x])
               case Ok((qids, i)) => recs[i].name == full && qids == [QidOf(recs, i)]
               case Err(_) => forall i | 0 <= i < |recs| :: recs[i].name != full
  {
    TreeNames(recs, at);
    ChildPath(recs[at].name, x);
    LastIndexIs(recs, PathJoin(Start(recs, at), x));
    CpioLaws.StepsOne(recs, Start(recs, at), at, [x]);
  }

  lemma Distinct(recs: seq<Record>, i: nat, j: nat)
    requires Tree(recs) && i < |recs| && j < |recs| && recs[i].name == recs[j].name
    ensures i == j
  {
  }

  /** A walk by one ordinary name reaches record `i`, with its qid, exactly when `i` is listed and
      that is its last name: the index and the scan agree. */
  lemma WalkFindsListing(recs: seq<Record>, at: nat, x: string, i: nat)
    requires Tree(recs) && at < |recs| && i < |recs| && Ordinary(x)
    ensures WalkFrom(recs, at, [x]) == Ok(([QidOf(recs, i)], i))
            <==> i in Listing(recs, at) && LastName(recs[i].name) == x
  {
    OneNameWalk(recs, at, x);
    ListingIsChildren(recs, at);
    TreeNames(recs, i);
    var full := PathJoin(Start(recs, at), x);
    ChildNamed(recs[at].name, x, recs[i].name, full);
    if recs[i].name == full {
      Distinct(recs, i, WalkFrom(recs, at, [x]).value.1);
    }
  }

  /** A walk by an ordinary name fails exactly when nothing listed has that name. */
  lemma WalkFailsOffListing(recs: seq<Record>, at: nat, x: string)
    requires Tree(recs) && at < |recs| && Ordinary(x)
    ensures WalkFrom(recs, at, [x]).Err?
            <==> forall i | i in Listing(recs, at) :: LastName(recs[i].name) != x
  {
    OneNameWalk(recs, at, x);
    if WalkFrom(recs, at, [x]).Ok? {
      WalkFindsListing(recs, at, x, WalkFrom(recs, at, [x]).value.1);
    }
    forall i | i in Listing(recs, at) && LastName(recs[i].name) == x
      ensures WalkFrom(recs, at, [x]).Ok?
    {
      WalkFindsListing(recs, at, x, i);
    }
  }

  lemma UpPath(dir: string, name: string)
    requires Named(dir) && Named(name) && IsChild(name, dir)
    ensures PathJoin(name, "..") == dir
  {
    NamedPaths(dir);
    NamedPaths(name);
    var p := name + "/" + "..";
    assert Split(p, '/') == Path(name) + [".."] by {
      assert p == name + ['/'] + "..";
      SplitAt(name, '/', "..");
      SplitNothing("..", '/');
    }
    assert !Rooted(p) by {
      assert name != "" && p[0] == name[0];
    }
    ReduceUp(Path(name));
  }

  lemma ReduceUp(cs: seq<string>)
    requires cs != [] && forall i | 0 <= i < |cs| :: Ordinary(cs[i])
    ensures Reduce(false, [], cs + [".."]) == cs[..|cs| - 1]
  {
    ReduceAppend(false, [], cs, [".."]);
    ReduceOrdinary(false, [], cs);
    assert [] + cs == cs;
    assert Ordinary(cs[|cs| - 1]);
    assert [".."][1..] == [];
  }

  /** A walk by ".." goes to the directory that lists the record. */
  lemma WalkUp(recs: seq<Record>, at: nat, dir: nat)
    requires Tree(recs) && at < |recs| && dir < |recs| && at in Listing(recs, dir)
    ensures WalkFrom(recs, at, [".."]) == Ok(([QidOf(recs, dir)], dir))
  {
    ListingIsChildren(recs, dir);
    TreeNames(recs, at);
    TreeNames(recs, dir);
    UpPath(recs[dir].name, recs[at].name);
    LastIndexIs(recs, recs[dir].name);
    CpioLaws.StepsOne(recs, Start(recs, at), at, [".."]);
    Distinct(recs, dir, LastIndex(recs, recs[dir].name).value);
    assert recs[at].name != "." by {
      assert Path(".") == [];
    }
  }

  lemma TwoWalks(recs: seq<Record>, at: nat, x: string, y: string, i: nat, j: nat)
    requires at < |recs| && i < |recs| && j < |recs| && CpioLaws.Relative(y)
    requires WalkFrom(recs, at, [x]) == Ok(([QidOf(recs, i)], i))
    requires WalkFrom(recs, i, [y]) == Ok(([QidOf(recs, j)], j))
    ensures WalkFrom(recs, at, [x, y]) == Ok(([QidOf(recs, i), QidOf(recs, j)], j))
  {
    CpioLaws.WalksCompose(recs, at, [x], [y]);
    assert [x] + [y] == [x, y];
    assert [QidOf(recs, i)] + [QidOf(recs, j)] == [QidOf(recs, i), QidOf(recs, j)];
  }

  /** Down by an ordinary name and up again is back where it started, in one walk. */
  lemma DownAndUp(recs: seq<Record>, at: nat, x: string, i: nat)
    requires Tree(recs) && at < |recs| && i < |recs| && Ordinary(x)
    requires i in Listing(recs, at) && LastName(recs[i].name) == x
    ensures WalkFrom(recs, at, [x, ".."]) == Ok(([QidOf(recs, i), QidOf(recs, at)], at))
  {
    WalkFindsListing(recs, at, x, i);
    WalkUp(recs, i, at);
    TwoWalks(recs, at, x, "..", i, at);
  }
}
