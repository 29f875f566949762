// `Clean` gives a path its one normal form.
module TextLaws {
  import opened Text

  predicate IsName(c: string) {
    c != "" && c != "." && '/' !in c
  }

  /** The elements of a clean path: names, with ".." only at the front, and not at all below the root. */
  predicate Normal(rooted: bool, cs: seq<string>) {
    forall i | 0 <= i < |cs| :: NormalAt(rooted, cs, i)
  }

  predicate NormalAt(rooted: bool, cs: seq<string>, i: nat)
    requires i < |cs|
  {
    IsName(cs[i]) && (cs[i] == ".." ==> !rooted && (i == 0 || cs[i - 1] == ".."))
  }

  lemma NormalFront(rooted: bool, cs: seq<string>)
    requires Normal(rooted, cs) && cs != []
    ensures Normal(rooted, cs[..|cs| - 1])
  {
    var front := cs[..|cs| - 1];
    forall i | 0 <= i < |front| ensures NormalAt(rooted, front, i) {
      assert NormalAt(rooted, cs, i);
    }
  }

  lemma NormalMore(rooted: bool, cs: seq<string>, c: string)
    requires Normal(rooted, cs) && IsName(c) && (c == ".." ==> !rooted && (cs == [] || cs[|cs| - 1] == ".."))
    ensures Normal(rooted, cs + [c])
  {
    forall i | 0 <= i < |cs + [c]| ensures NormalAt(rooted, cs + [c], i) {
      assert i < |cs| ==> NormalAt(rooted, cs, i);
    }
  }

  lemma RootedIsOrdinary(cs: seq<string>)
    requires Normal(true, cs)
    ensures forall i | 0 <= i < |cs| :: Ordinary(cs[i])
  {
    forall i | 0 <= i < |cs| ensures Ordinary(cs[i]) {
      assert NormalAt(true, cs, i);
    }
  }

  lemma {:induction false} ReduceIsNormal(rooted: bool, done: seq<string>, todo: seq<string>)
    requires Normal(rooted, done) && forall i | 0 <= i < |todo| :: '/' !in todo[i]
    ensures Normal(rooted, Reduce(rooted, done, todo))
    decreases |todo|
  {
    if todo != [] {
      var c := todo[0];
      if c == "" || c == "." {
        ReduceIsNormal(rooted, done, todo[1..]);
      } else if c == ".." && done != [] && done[|done| - 1] != ".." {
        NormalFront(rooted, done);
        ReduceIsNormal(rooted, done[..|done| - 1], todo[1..]);
      } else if c == ".." && rooted {
        ReduceIsNormal(rooted, done, todo[1..]);
      } else {
        NormalMore(rooted, done, c);
        ReduceIsNormal(rooted, done + [c], todo[1..]);
      }
    }
  }

  lemma {:induction false} ReduceNormal(rooted: bool, done: seq<string>, todo: seq<string>)
    requires Normal(rooted, done + todo)
    ensures Reduce(rooted, done, todo) == done + todo
    decreases |todo|
  {
    if todo == [] {
      assert done + todo == done;
    } else {
      var c, all := todo[0], done + todo;
      assert NormalAt(rooted, all, |done|);
      assert all[|done|] == c && (done != [] ==> all[|done| - 1] == done[|done| - 1]);
      assert done + [c] + todo[1..] == all;
      ReduceNormal(rooted, done + [c], todo[1..]);
    }
  }

  lemma ElementsAreNormal(p: string)
    ensures Normal(Rooted(p), Elements(p))
  {
    SplitParts(p, '/');
    ReduceIsNormal(Rooted(p), [], Split(p, '/'));
  }

  lemma RenderedElements(rooted: bool, cs: seq<string>)
    requires Normal(rooted, cs)
    ensures Rooted(Render(rooted, cs)) == rooted && Elements(Render(rooted, cs)) == cs
  {
    var p := Render(rooted, cs);
    assert [] + cs == cs;
    ReduceNormal(rooted, [], cs);
    if cs != [] {
      forall i | 0 <= i < |cs| ensures '/' !in cs[i] {
        assert NormalAt(rooted, cs, i);
      }
      SplitJoin(cs, '/');
    }
    if rooted {
      assert p[1..] == Join(cs, "/");
      assert Split(p, '/') == [""] + Split(p[1..], '/');
      assert ([""] + Split(p[1..], '/'))[1..] == Split(p[1..], '/');
    } else if cs == [] {
      SplitNothing(".", '/');
    } else {
      assert NormalAt(rooted, cs, 0) && cs[0][0] in cs[0];
    }
  }

  /** Cleaning a path keeps what it means, and cleaning it again changes nothing. */
  lemma CleanIsIdempotent(p: string)
    ensures Rooted(Clean(p)) == Rooted(p) && Elements(Clean(p)) == Elements(p)
    ensures Clean(Clean(p)) == Clean(p)
  {
    ElementsAreNormal(p);
    RenderedElements(Rooted(p), Elements(p));
  }

  // ----- relative paths -----

  /** In a clean path no ".." comes after a name. */
  lemma {:induction false} NamesStay(rooted: bool, cs: seq<string>, k: nat, i: nat)
    requires Normal(rooted, cs) && k <= i < |cs| && cs[k] != ".."
    ensures cs[i] != ".."
  {
    if k < i {
      NamesStay(rooted, cs, k, i - 1);
      assert NormalAt(rooted, cs, i);
    }
  }

  /** As many ".." as there are names after the first `k` elements lead back to those. */
  lemma {:induction false} UpTo(rooted: bool, cs: seq<string>, k: nat, m: nat, rest: seq<string>)
    requires Normal(rooted, cs) && |cs| == k + m && (m > 0 ==> cs[k] != "..")
    ensures Reduce(rooted, cs, seq(m, _ => "..") + rest) == Reduce(rooted, cs[..k], rest)
    decreases m
  {
    if m == 0 {
      assert cs[..k] == cs && seq(m, _ => "..") + rest == rest;
    } else {
      var ups := seq(m, _ => "..") + rest;
      NamesStay(rooted, cs, k, |cs| - 1);
      NormalFront(rooted, cs);
      assert ups[0] == ".." && ups[1..] == seq(m - 1, _ => "..") + rest;
      UpTo(rooted, cs[..|cs| - 1], k, m - 1, rest);
      assert cs[..|cs| - 1][..k] == cs[..k];
    }
  }

  lemma SplitRendered(way: seq<string>)
    requires forall i | 0 <= i < |way| :: IsName(way[i])
    ensures var p := Render(false, way);
            p != "" && !Rooted(p) && Split(p, '/') == if way == [] then ["."] else way
  {
    if way == [] {
      SplitNothing(".", '/');
    } else {
      SplitJoin(way, '/');
      assert way[0][0] in way[0];
    }
  }

  lemma JoinedElements(base: string, p: string)
    requires base != ""
    ensures Rooted(base + "/" + p) == Rooted(base)
    ensures Elements(base + "/" + p) == Reduce(Rooted(base), Elements(base), Split(p, '/'))
  {
    SplitAt(base, '/', p);
    ReduceAppend(Rooted(base), [], Split(base, '/'), Split(p, '/'));
  }

  lemma WayIsNames(rooted: bool, b: seq<string>, t: seq<string>)
    requires Normal(rooted, t)
    ensures forall i | 0 <= i < |Way(b, t)| :: IsName(Way(b, t)[i])
  {
    var k := CommonPrefix(b, t);
    forall i | 0 <= i < |Way(b, t)| ensures IsName(Way(b, t)[i]) {
      assert i >= |b| - k ==> NormalAt(rooted, t, k + i - (|b| - k));
    }
  }

  lemma WayLeads(rooted: bool, b: seq<string>, t: seq<string>)
    requires Normal(rooted, b) && Normal(rooted, t)
    requires var k := CommonPrefix(b, t); k < |b| ==> b[k] != ".."
    ensures Reduce(rooted, b, Way(b, t)) == t
  {
    var k := CommonPrefix(b, t);
    UpTo(rooted, b, k, |b| - k, t[k..]);
    assert t[..k] + t[k..] == t;
    ReduceNormal(rooted, t[..k], t[k..]);
  }

  /** The relative path between two paths, joined to the first, is the second. */
  lemma RelLeads(base: string, targ: string)
    requires Rel(base, targ).Some?
    ensures PathJoin(base, Rel(base, targ).value) == Clean(targ)
  {
    var r, b, t := Rooted(base), Elements(base), Elements(targ);
    ElementsAreNormal(base);
    ElementsAreNormal(targ);
    WayIsNames(r, b, t);
    SplitRendered(Way(b, t));
    WayLeads(r, b, t);
    if base != "" {
      JoinedElements(base, Rel(base, targ).value);
    } else {
      SplitNothing("", '/');
    }
  }

  // ----- numbers -----

  /** The number that a string of digits says, most significant first. */
  function Number(s: string): int {
    if s == "" then 0 else 10 * Number(s[..|s| - 1]) + (s[|s| - 1] as int - '0' as int)
  }

  /** A number is printed in decimal digits that say it, without zeros in front. */
  lemma {:induction false} DecimalIs(n: nat)
    ensures var s := Decimal(n);
            && s != "" && (forall i | 0 <= i < |s| :: '0' <= s[i] <= '9')
            && Number(s) == n && (s[0] == '0' ==> n == 0)
  {
    if n < 10 {
      assert Number(Decimal(n)) == 10 * Number("") + n;
    } else {
      var s, d := Decimal(n / 10), Decimal(n % 10);
      DecimalIs(n / 10);
      assert (s + d)[..|s + d| - 1] == s && (s + d)[|s + d| - 1] == d[0];
      assert (s + d)[0] == s[0];
    }
  }
}
