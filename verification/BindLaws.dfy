// A namespace string turns into bind mounts: one per bind, in order, with the cleaned source and
// nothing but the bind flag.
module BindLaws {
  import opened Wrappers
  import opened Text
  import opened Namespace
  import opened NamespaceLaws
  import TextLaws

  // ----- the text of a namespace -----

  /** A bind that a namespace string can express. */
  predicate Expressible(b: Bind) {
    && b.local != "" && ':' !in b.local && '=' !in b.local
    && b.remote != "" && ':' !in b.remote
  }

  function Format(binds: seq<Bind>): seq<string> {
    seq(|binds|, i requires 0 <= i < |binds| => binds[i].local + "=" + binds[i].remote)
  }

  lemma {:induction false} SplitFirstAt(a: string, sep: char, b: string)
    requires sep !in a
    ensures SplitFirst(a + [sep] + b, sep) == [a, b]
  {
    var s := a + [sep] + b;
    if a == "" {
      assert s[1..] == b;
    } else {
      assert s[1..] == a[1..] + [sep] + b;
      SplitFirstAt(a[1..], sep, b);
      assert [a[0]] + a[1..] == a;
      assert [a[1..], b][1..] == [b];
    }
  }

  lemma {:induction false} BindsOfFormat(binds: seq<Bind>, at: nat)
    requires forall i | 0 <= i < |binds| :: Expressible(binds[i])
    ensures BindsFrom(Format(binds), at) == (binds, None)
  {
    if binds != [] {
      var b := binds[0];
      SplitFirstAt(b.local, '=', b.remote);
      assert BindOf(b.local + "=" + b.remote, at) == Ok(b);
      assert Format(binds)[1..] == Format(binds[1..]);
      BindsOfFormat(binds[1..], at + 1);
      assert [b] + binds[1..] == binds;
    }
  }

  /** Every list of expressible binds is what its text parses to. */
  lemma FormatRoundTrip(binds: seq<Bind>)
    requires forall i | 0 <= i < |binds| :: Expressible(binds[i])
    ensures Binds(Join(Format(binds), ":")) == (binds, None)
  {
    if binds != [] {
      var parts := Format(binds);
      forall i | 0 <= i < |parts| ensures ':' !in parts[i] {
      }
      SplitJoin(parts, ':');
      BindsOfFormat(binds, 0);
      JoinNonEmpty(parts);
    }
  }

  lemma {:induction false} SplitFirstIs(s: string, sep: char)
    ensures var c := SplitFirst(s, sep);
            && sep !in c[0]
            && (|c| == 1 ==> s == c[0])
            && (|c| == 2 ==> s == c[0] + [sep] + c[1])
  {
    if s != "" && s[0] != sep {
      SplitFirstIs(s[1..], sep);
      var c := SplitFirst(s[1..], sep);
      if |c| == 2 {
        assert [s[0]] + (c[0] + [sep] + c[1]) == [s[0]] + c[0] + [sep] + c[1];
      }
      assert [s[0]] + s[1..] == s;
    }
  }

  /** What an accepted element says: everything before its first '=' is the target, everything after
      it the remote name; without one the element is both. */
  lemma AcceptedBind(elem: string, at: nat)
    requires BindOf(elem, at).Ok?
    ensures var b := BindOf(elem, at).value;
            if '=' in elem then elem == b.local + "=" + b.remote && '=' !in b.local else b == Bind(elem, elem)
  {
    SplitFirstIs(elem, '=');
    var c := SplitFirst(elem, '=');
    if |c| == 2 {
      assert (c[0] + ['='] + c[1])[|c[0]|] == '=';
    }
  }

  lemma JoinNonEmpty(parts: seq<string>)
    requires parts != [] && parts[0] != ""
    ensures Join(parts, ":") != ""
  {
  }

  /** The element is not empty, does not begin with its first '=' and does not end with it. */
  predicate IsGood(elem: string) {
    var c := SplitFirst(elem, '=');
    elem != "" && c[0] != "" && c[|c| - 1] != ""
  }

  /** `ParseBinds` accepts a namespace exactly if every element is good, and finds a bind in each. */
  lemma {:induction false} Accepts(elems: seq<string>, at: nat)
    ensures BindsFrom(elems, at).1.None? <==> forall e | e in elems :: IsGood(e)
    ensures BindsFrom(elems, at).1.None? ==> |BindsFrom(elems, at).0| == |elems|
  {
    if elems != [] {
      assert elems == [elems[0]] + elems[1..];
      assert BindOf(elems[0], at).Ok? <==> IsGood(elems[0]);
      Accepts(elems[1..], at + 1);
    }
  }

  /** Element `k` is the first bad one. */
  predicate FirstBad(elems: seq<string>, k: nat) {
    k < |elems| && !IsGood(elems[k]) && forall j | 0 <= j < k :: IsGood(elems[j])
  }

  /** What is wrong with the first bad element, and where it is: it is empty, or nothing is before its first
      '=', or nothing is behind it. The binds before it are kept. */
  lemma {:induction false} Rejects(elems: seq<string>, at: nat, k: nat)
    requires FirstBad(elems, k)
    ensures var (binds, err) := BindsFrom(elems, at);
            && |binds| == k
            && err == Some(if elems[k] == "" then EmptyElement(at + k)
                           else if elems[k][0] == '=' then EmptyLocal(at + k)
                           else EmptyRemote(at + k))
  {
    if k == 0 {
      SplitFirstIs(elems[0], '=');
    } else {
      assert IsGood(elems[0]) && BindOf(elems[0], at).Ok?;
      assert FirstBad(elems[1..], k - 1) by {
        assert forall j | 0 <= j < k - 1 :: elems[1..][j] == elems[j + 1];
      }
      Rejects(elems[1..], at + 1, k - 1);
    }
  }

  /** ... and an element is bad exactly if it is empty, begins with '=' or has its only '=' at the end. */
  lemma BadElements(elem: string)
    ensures !IsGood(elem) <==> elem == "" || elem[0] == '='
                               || (elem[|elem| - 1] == '=' && '=' !in elem[..|elem| - 1])
  {
    SplitFirstIs(elem, '=');
    var c := SplitFirst(elem, '=');
    if |c| == 2 {
      assert elem == c[0] + "=" + c[1] && elem[|c[0]|] == '=';
      if c[1] == "" {
        assert elem[..|elem| - 1] == c[0];
      } else if elem[|elem| - 1] == '=' {
        assert elem[..|elem| - 1][|c[0]|] == '=';
      }
    } else if elem != "" {
      assert elem[0] in elem && elem[|elem| - 1] in elem;
    }
  }

  // ----- characters that are not whitespace -----

  lemma NoSpaceAppend(a: string, b: string)
    ensures NoSpace(a + b) <==> NoSpace(a) && NoSpace(b)
  {
    if NoSpace(a + b) {
      forall i | 0 <= i < |a| ensures !IsSpace(a[i]) {
        assert (a + b)[i] == a[i];
      }
      forall i | 0 <= i < |b| ensures !IsSpace(b[i]) {
        assert (a + b)[|a| + i] == b[i];
      }
    }
  }

  predicate AllNoSpace(parts: seq<string>) {
    forall i | 0 <= i < |parts| :: NoSpace(parts[i])
  }

  lemma {:induction false} SplitNoSpace(s: string, sep: char)
    requires NoSpace(s)
    ensures AllNoSpace(Split(s, sep))
  {
    if s != "" {
      SplitNoSpace(s[1..], sep);
      NoSpaceAppend([s[0]], Split(s[1..], sep)[0]);
    }
  }

  lemma {:induction false} SplitFirstNoSpace(s: string, sep: char)
    requires NoSpace(s)
    ensures AllNoSpace(SplitFirst(s, sep))
  {
    if s != "" {
      SplitFirstNoSpace(s[1..], sep);
      NoSpaceAppend([s[0]], SplitFirst(s[1..], sep)[0]);
    }
  }

  lemma {:induction false} ReduceNoSpace(rooted: bool, done: seq<string>, todo: seq<string>)
    requires AllNoSpace(done) && AllNoSpace(todo)
    ensures AllNoSpace(Reduce(rooted, done, todo))
    decreases |todo|
  {
    if todo != [] {
      var c := todo[0];
      if c == "" || c == "." {
        ReduceNoSpace(rooted, done, todo[1..]);
      } else if c == ".." && done != [] && done[|done| - 1] != ".." {
        ReduceNoSpace(rooted, done[..|done| - 1], todo[1..]);
      } else if c == ".." && rooted {
        ReduceNoSpace(rooted, done, todo[1..]);
      } else {
        ReduceNoSpace(rooted, done + [c], todo[1..]);
      }
    }
  }

  lemma {:induction false} JoinNoSpace(parts: seq<string>, sep: string)
    requires AllNoSpace(parts) && NoSpace(sep)
    ensures NoSpace(Join(parts, sep))
  {
    if |parts| > 1 {
      JoinNoSpace(parts[1..], sep);
      NoSpaceAppend(parts[0], sep);
      NoSpaceAppend(parts[0] + sep, Join(parts[1..], sep));
    }
  }

  lemma SourceNoSpace(b: Bind)
    requires NoSpace(b.remote)
    ensures NoSpace(Source(b))
  {
    var p := "/tmp/cpu/" + b.remote;
    NoSpaceAppend("/tmp/cpu/", b.remote);
    SplitNoSpace(p, '/');
    ReduceNoSpace(true, [], Split(p, '/'));
    JoinNoSpace(Elements(p), "/");
    NoSpaceAppend("/", Join(Elements(p), "/"));
  }

  /** The source of a bind is a clean absolute path: no element of it is empty, "." or "..". */
  lemma SourceIsClean(b: Bind)
    ensures Clean(Source(b)) == Source(b) && Rooted(Source(b))
    ensures forall i | 0 <= i < |Elements(Source(b))| :: Ordinary(Elements(Source(b))[i])
  {
    var p := "/tmp/cpu/" + b.remote;
    assert Rooted(p);
    TextLaws.CleanIsIdempotent(p);
    TextLaws.ElementsAreNormal(p);
    TextLaws.RootedIsOrdinary(Elements(p));
  }

  lemma TopElements()
    ensures Elements("/tmp/cpu") == ["tmp", "cpu"]
  {
    var top := ["tmp", "cpu"];
    assert top[1..] == ["cpu"];
    assert Join(top, "/") == "tmp" + "/" + "cpu";
    assert Render(true, top) == "/tmp/cpu";
    TextLaws.RenderedElements(true, top);
  }

  lemma ElementsBelow(x: string)
    ensures Elements("/tmp/cpu/" + x) == Reduce(true, ["tmp", "cpu"], Split(x, '/'))
  {
    TopElements();
    assert "/tmp/cpu/" + x == "/tmp/cpu" + ['/'] + x;
    SplitAt("/tmp/cpu", '/', x);
    ReduceAppend(true, [], Split("/tmp/cpu", '/'), Split(x, '/'));
  }

  lemma ElementsOfRooted(name: string)
    ensures Reduce(true, ["tmp", "cpu"], Split("/" + name, '/')) == Reduce(true, ["tmp", "cpu"], Split(name, '/'))
  {
    assert ("/" + name)[1..] == name;
    assert ([""] + Split(name, '/'))[1..] == Split(name, '/');
  }

  lemma RenderTop(parts: seq<string>)
    requires parts != []
    ensures "/" + Join(["tmp", "cpu"] + parts, "/") == "/tmp/cpu/" + Join(parts, "/")
  {
    var all := ["tmp", "cpu"] + parts;
    assert all[1..] == ["cpu"] + parts && all[1..][1..] == parts;
    assert "/tmp/cpu/" == "/" + ("tmp" + "/" + ("cpu" + "/"));
    assert "/" + ("tmp" + "/" + ("cpu" + "/" + Join(parts, "/")))
        == "/" + ("tmp" + "/" + ("cpu" + "/")) + Join(parts, "/");
  }

  /** For a remote name of ordinary elements, rooted or not, it is that name below the place where the
      client is mounted. */
  lemma SourceIs(b: Bind, name: string)
    requires b.remote == name || b.remote == "/" + name
    requires forall i | 0 <= i < |Split(name, '/')| :: Ordinary(Split(name, '/')[i])
    ensures Source(b) == "/tmp/cpu/" + name
  {
    var parts := Split(name, '/');
    ElementsBelow(b.remote);
    ElementsOfRooted(name);
    ReduceOrdinary(true, ["tmp", "cpu"], parts);
    RenderTop(parts);
    JoinSplit(name, '/');
  }

  /** The source and the target of a bind stand as one field each in the line. */
  predicate Fielded(b: Bind) {
    NoSpace(Source(b)) && NoSpace(b.local)
  }

  lemma {:induction false} BindsNoSpace(elems: seq<string>, at: nat)
    requires AllNoSpace(elems)
    ensures forall b | b in BindsFrom(elems, at).0 :: Fielded(b)
  {
    if elems != [] && BindOf(elems[0], at).Ok? {
      SplitFirstNoSpace(elems[0], '=');
      SourceNoSpace(BindOf(elems[0], at).value);
      BindsNoSpace(elems[1..], at + 1);
    }
  }

  lemma {:induction false} BindsHaveTargets(elems: seq<string>, at: nat)
    ensures forall b | b in BindsFrom(elems, at).0 :: b.local != ""
  {
    if elems != [] {
      BindsHaveTargets(elems[1..], at + 1);
    }
  }

  // ----- the fields of a line -----

  lemma WordIs(w: string, rest: string)
    requires NoSpace(w) && (rest == "" || IsSpace(rest[0]))
    ensures Word(w + rest) == |w|
  {
    assert forall i | 0 <= i < |w| :: (w + rest)[i] == w[i];
    assert rest != "" ==> (w + rest)[|w|] == rest[0];
  }

  lemma FieldsWord(w: string, rest: string)
    requires w != "" && NoSpace(w) && (rest == "" || IsSpace(rest[0]))
    ensures Fields(w + rest) == [w] + Fields(rest)
  {
    WordIs(w, rest);
    assert (w + rest)[..|w|] == w && (w + rest)[|w|..] == rest;
    assert (w + rest)[0] == w[0];
  }

  lemma FieldsAfter(w: string, rest: string)
    requires w != "" && NoSpace(w)
    ensures Fields(w + (" " + rest)) == [w] + Fields(rest)
  {
    FieldsWord(w, " " + rest);
    assert (" " + rest)[1..] == rest;
  }

  predicate IsWord(w: string) {
    w != "" && NoSpace(w)
  }

  lemma TwoFields(u: string, v: string, rest: string)
    requires IsWord(u) && IsWord(v)
    ensures Fields(u + (" " + (v + (" " + rest)))) == [u, v] + Fields(rest)
  {
    FieldsAfter(v, rest);
    FieldsAfter(u, v + (" " + rest));
    assert [u] + ([v] + Fields(rest)) == [u, v] + Fields(rest);
  }

  lemma SixFields(u: string, v: string, w: string, x: string, y: string, z: string)
    requires IsWord(u) && IsWord(v) && IsWord(w) && IsWord(x) && IsWord(y) && IsWord(z)
    ensures Fields(u + (" " + (v + (" " + (w + (" " + (x + (" " + (y + (" " + z)))))))))) == [u, v, w, x, y, z]
  {
    var last := y + (" " + z);
    assert Fields(last) == [y, z] by {
      FieldsWord(z, "");
      assert z + "" == z;
      FieldsAfter(y, z);
    }
    TwoFields(w, x, last);
    TwoFields(u, v, w + (" " + (x + (" " + last))));
    assert [u, v] + ([w, x] + [y, z]) == [u, v, w, x, y, z];
  }

  lemma Tail()
    ensures " none defaults,bind 0 0" == " " + ("none" + (" " + ("defaults,bind" + (" " + ("0" + (" " + "0"))))))
    ensures IsWord("none") && IsWord("defaults,bind") && IsWord("0")
  {
  }

  lemma Regroup(a: string, b: string, c: string, d: string)
    ensures a + b + c + d == a + (b + (c + d))
  {
  }

  lemma SourceStarts(b: Bind)
    ensures Source(b) != "" && Source(b)[0] == '/'
  {
  }

  lemma LineFields(b: Bind)
    requires Fielded(b) && b.local != ""
    ensures Fields(Line(b)) == [Source(b), b.local, "none", "defaults,bind", "0", "0"]
  {
    SourceStarts(b);
    Tail();
    Regroup(Source(b), " ", b.local, " none defaults,bind 0 0");
    SixFields(Source(b), b.local, "none", "defaults,bind", "0", "0");
  }

  lemma LineEnds(b: Bind)
    ensures |Line(b)| > 0 && Line(b)[0] == '/' && Line(b)[|Line(b)| - 1] == '0'
  {
    SourceStarts(b);
    assert Line(b)[0] == Source(b)[0];
    var pre := Source(b) + " " + b.local;
    assert Line(b) == pre + " none defaults,bind 0 0";
    assert Line(b)[|Line(b)| - 1] == " none defaults,bind 0 0"[22];
  }

  // ----- the mounts -----

  function Expected(h: Host, b: Bind): Call
    requires "bind" in h.convert
  {
    Call(Follow(h, Source(b)), Follow(h, b.local), "none", h.convert["bind"], "")
  }

  function AllExpected(h: Host, binds: seq<Bind>): seq<Call>
    requires "bind" in h.convert
  {
    seq(|binds|, i requires 0 <= i < |binds| => Expected(h, binds[i]))
  }

  lemma TwoOptions(h: Host, a: string, b: string)
    requires a == "defaults" && b != "defaults" && b in h.convert
    ensures Options(h, [a, b]) == (h.convert[b], [])
  {
    assert [a, b][..1] == [a] && [a][..0] == [];
    assert Options(h, [a]) == ({}, []);
    assert {} + h.convert[b] == h.convert[b];
  }

  function Sum(a: (Flags, seq<string>), b: (Flags, seq<string>)): (Flags, seq<string>) {
    (a.0 + b.0, a.1 + b.1)
  }

  lemma AddToSum(h: Host, a: (Flags, seq<string>), b: (Flags, seq<string>), f: string)
    ensures AddOption(h, Sum(a, b), f) == Sum(a, AddOption(h, b, f))
  {
    if f in h.convert {
      assert a.0 + b.0 + h.convert[f] == a.0 + (b.0 + h.convert[f]);
    }
    assert a.1 + b.1 + [f] == a.1 + (b.1 + [f]);
  }

  /** Options add up: the flags of two lists are joined, the rest stays in order. */
  lemma {:induction false} OptionsAddUp(h: Host, a: seq<string>, b: seq<string>)
    ensures Options(h, a + b) == Sum(Options(h, a), Options(h, b))
    decreases |b|
  {
    if b == [] {
      assert a + b == a;
      assert Options(h, a).1 + [] == Options(h, a).1;
      assert Options(h, a).0 + {} == Options(h, a).0;
    } else {
      var last := |b| - 1;
      assert (a + b)[|a + b| - 1] == b[last] && (a + b)[..|a + b| - 1] == a + b[..last];
      OptionsAddUp(h, a, b[..last]);
      AddToSum(h, Options(h, a), Options(h, b[..last]), b[last]);
    }
  }

  lemma SplitPair(a: string, sep: char, b: string)
    requires sep !in a && sep !in b
    ensures Split(a + [sep] + b, sep) == [a, b]
  {
    SplitNothing(a, sep);
    SplitNothing(b, sep);
    SplitAt(a, sep, b);
    assert [a] + [b] == [a, b];
  }

  lemma BothOptions()
    ensures "defaults" + [','] + "bind" == "defaults,bind"
    ensures ',' !in "defaults" && ',' !in "bind"
  {
  }

  lemma SplitOptions()
    ensures Split(TrimSpace("defaults,bind"), ',') == ["defaults", "bind"]
  {
    assert TrimSpace("defaults,bind") == "defaults,bind";
    BothOptions();
    SplitPair("defaults", ',', "bind");
  }

  lemma LineIsMount(h: Host, b: Bind)
    requires "bind" in h.convert && Fielded(b) && b.local != ""
    ensures LineCalls(h, Line(b)) == [Expected(h, b)]
  {
    LineEnds(b);
    LineFields(b);
    SplitOptions();
    TwoOptions(h, "defaults", "bind");
  }

  function LinesOf(binds: seq<Bind>): seq<string> {
    seq(|binds|, i requires 0 <= i < |binds| => Line(binds[i]))
  }

  /** The binds whose lines the scanner reaches. */
  function Reached(binds: seq<Bind>): (r: seq<Bind>)
    ensures r <= binds
    ensures forall i | 0 <= i < |r| :: !TooLong(Line(r[i]))
    ensures |r| < |binds| ==> TooLong(Line(binds[|r|]))
  {
    if binds == [] || TooLong(Line(binds[0])) then [] else [binds[0]] + Reached(binds[1..])
  }

  ghost predicate AllFielded(binds: seq<Bind>) {
    forall b | b in binds :: Fielded(b) && b.local != ""
  }

  lemma NoNewline(s: string)
    requires NoSpace(s)
    ensures '\n' !in s
  {
  }

  lemma NotIn(c: char, a: string, b: string)
    ensures c in a + b <==> c in a || c in b
  {
  }

  lemma LineHasNoNewline(b: Bind)
    requires Fielded(b)
    ensures '\n' !in Line(b)
  {
    NoNewline(Source(b));
    NoNewline(b.local);
    NotIn('\n', Source(b), " ");
    NotIn('\n', Source(b) + " ", b.local);
    NotIn('\n', Source(b) + " " + b.local, " none defaults,bind 0 0");
  }

  lemma {:induction false} TableLines(binds: seq<Bind>)
    requires AllFielded(binds)
    ensures Split(Table(binds), '\n') == LinesOf(binds) + [""]
  {
    if binds == [] {
      assert LinesOf(binds) + [""] == [""];
    } else {
      var l := Line(binds[0]);
      LineHasNoNewline(binds[0]);
      SplitNothing(l, '\n');
      SplitAt(l, '\n', Table(binds[1..]));
      TableLines(binds[1..]);
      assert [l] + (LinesOf(binds[1..]) + [""]) == LinesOf(binds) + [""];
    }
  }

  lemma TrimsToItself(t: string)
    requires t != "" && t[0] != '\n' && t[|t| - 1] != '\n'
    ensures Trim(t + "\n") == t
  {
    var s := t + "\n";
    assert s[|s| - 1] == '\n' && s[..|s| - 1] == t;
    assert TrimRight(t) == t && TrimLeft(t) == t;
  }

  lemma {:induction false} TableBody(binds: seq<Bind>) returns (t: string)
    requires binds != []
    ensures Table(binds) == t + "\n" && t != "" && t[0] == '/' && t[|t| - 1] == '0'
  {
    LineEnds(binds[0]);
    var l := Line(binds[0]);
    if |binds| == 1 {
      t := l;
      assert l + "\n" + "" == l + "\n";
    } else {
      var rest := TableBody(binds[1..]);
      t := l + "\n" + rest;
      assert t + "\n" == l + "\n" + (rest + "\n");
    }
  }

  /** Joining the table of a namespace alone changes nothing. */
  lemma JoinOne(binds: seq<Bind>)
    requires binds != []
    ensures JoinTables([Table(binds)]) == Table(binds)
  {
    var t := TableBody(binds);
    TrimsToItself(t);
    assert Trimmed([Table(binds)]) == [t];
  }

  lemma {:induction false} SeenBinds(binds: seq<Bind>)
    ensures Seen(LinesOf(binds)) == LinesOf(Reached(binds))
  {
    if binds != [] {
      assert LinesOf(binds)[1..] == LinesOf(binds[1..]);
      SeenBinds(binds[1..]);
      if !TooLong(Line(binds[0])) {
        assert [Line(binds[0])] + LinesOf(Reached(binds[1..])) == LinesOf(Reached(binds));
      }
    }
  }

  lemma {:induction false} OneCallEach(h: Host, lines: seq<string>, calls: seq<Call>)
    requires |lines| == |calls|
    requires forall i | 0 <= i < |lines| :: LineCalls(h, lines[i]) == [calls[i]]
    ensures Calls(h, lines) == calls
  {
    if lines != [] {
      OneCallEach(h, lines[1..], calls[1..]);
      assert [calls[0]] + calls[1..] == calls;
    }
  }

  lemma LinesAreMounts(h: Host, binds: seq<Bind>)
    requires "bind" in h.convert && AllFielded(binds)
    ensures Calls(h, LinesOf(binds)) == AllExpected(h, binds)
  {
    forall i | 0 <= i < |binds| ensures LineCalls(h, LinesOf(binds)[i]) == [AllExpected(h, binds)[i]] {
      LineIsMount(h, binds[i]);
    }
    OneCallEach(h, LinesOf(binds), AllExpected(h, binds));
  }

  lemma TableMounts(h: Host, binds: seq<Bind>)
    requires "bind" in h.convert && AllFielded(binds)
    ensures Mounts(h, Table(binds)) == AllExpected(h, Reached(binds))
  {
    TableLines(binds);
    assert Lines(Table(binds)) == LinesOf(binds);
    SeenBinds(binds);
    LinesAreMounts(h, Reached(binds));
  }

  lemma TableIsShort(binds: seq<Bind>)
    requires AllFielded(binds) && forall b | b in binds :: !TooLong(Line(b))
    ensures ShortText(Table(binds))
  {
    TableLines(binds);
    ShortAppend(LinesOf(binds), [""]);
  }

  /** The table of binds makes one mount for each bind that the scanner reaches, in order. */
  lemma TableIsMounted(h: Host, binds: seq<Bind>)
    requires "bind" in h.convert && AllFielded(binds)
    ensures Mounts(h, JoinTables([Table(binds)])) == AllExpected(h, Reached(binds))
  {
    if binds == [] {
      JoinKeepsMounts(h, [""]);
      assert AllMounts(h, [""]) == Mounts(h, "") + AllMounts(h, [""][1..]);
      assert Lines("") == [];
    } else {
      JoinOne(binds);
      TableMounts(h, binds);
    }
  }

  /** From the namespace string to the mounts: without whitespace and with short lines, there is
      exactly one bind mount for each bind, in order. */
  lemma NamespaceIsMounted(h: Host, s: string)
    requires "bind" in h.convert && NoSpace(s) && Binds(s).1.None?
    requires forall b | b in Binds(s).0 :: !TooLong(Line(b))
    ensures Mounts(h, JoinTables([Table(Binds(s).0)])) == AllExpected(h, Binds(s).0)
  {
    var binds := Binds(s).0;
    if s != "" {
      SplitNoSpace(s, ':');
      BindsNoSpace(Split(s, ':'), 0);
      BindsHaveTargets(Split(s, ':'), 0);
    }
    TableIsMounted(h, binds);
    ReachesAll(binds);
  }

  lemma ReachesAll(binds: seq<Bind>)
    ensures Reached(binds) == binds <==> forall b | b in binds :: !TooLong(Line(b))
  {
    if |Reached(binds)| < |binds| {
      assert binds[|Reached(binds)|] in binds;
    }
  }

  // ----- exactly when -----

  lemma {:induction false} FieldsNoSpace(s: string)
    ensures AllNoSpace(Fields(s))
    decreases |s|
  {
    if s != "" {
      if IsSpace(s[0]) {
        FieldsNoSpace(s[1..]);
      } else {
        FieldsNoSpace(s[Word(s)..]);
      }
    }
  }

  lemma {:induction false} CallsNoSpace(h: Host, lines: seq<string>)
    requires h.links == map[]
    ensures forall c | c in Calls(h, lines) :: NoSpace(c.source) && NoSpace(c.target)
  {
    if lines != [] {
      FieldsNoSpace(DropCR(lines[0]));
      CallsNoSpace(h, lines[1..]);
    }
  }

  /** Without symbolic links: the mounts are those of the namespace if and only if no cleaned source
      and no target has whitespace in it and no line is too long for the scanner. */
  lemma NamespaceIsMountedExactly(h: Host, s: string)
    requires "bind" in h.convert && h.links == map[] && Binds(s).1.None?
    ensures Mounts(h, JoinTables([Table(Binds(s).0)])) == AllExpected(h, Binds(s).0)
            <==> forall b | b in Binds(s).0 :: Fielded(b) && !TooLong(Line(b))
  {
    var binds := Binds(s).0;
    if s != "" {
      BindsHaveTargets(Split(s, ':'), 0);
    }
    var mounts := Mounts(h, JoinTables([Table(binds)]));
    if mounts == AllExpected(h, binds) {
      CallsNoSpace(h, Seen(Lines(JoinTables([Table(binds)]))));
      forall i | 0 <= i < |binds| ensures Fielded(binds[i]) {
        assert mounts[i] == Expected(h, binds[i]);
        assert mounts[i] in mounts;
      }
      TableIsMounted(h, binds);
      assert |Reached(binds)| == |binds|;
      ReachesAll(binds);
    } else if forall b | b in binds :: Fielded(b) && !TooLong(Line(b)) {
      TableIsMounted(h, binds);
      ReachesAll(binds);
      assert false;
    }
  }

  /** After a user's own tables, as the client joins them: the binds come after the user's entries. */
  lemma BindsComeLast(h: Host, own: string, binds: seq<Bind>)
    requires "bind" in h.convert && AllFielded(binds) && ShortText(own)
    requires forall b | b in binds :: !TooLong(Line(b))
    ensures Mounts(h, JoinTables([own, Table(binds)])) == Mounts(h, own) + AllExpected(h, binds)
  {
    TableIsShort(binds);
    TableMounts(h, binds);
    ReachesAll(binds);
    JoinKeepsMounts(h, [own, Table(binds)]);
    TwoTables(h, own, Table(binds));
  }

  lemma TwoTables(h: Host, a: string, b: string)
    ensures AllMounts(h, [a, b]) == Mounts(h, a) + Mounts(h, b)
  {
    assert [a, b][1..] == [b] && [b][1..] == [];
    assert AllMounts(h, [b]) == Mounts(h, b) + [];
  }

  lemma TwoInTurn(h: Host, own: string, t: string)
    ensures Mounts(h, JoinTables([own, t]))
         == Mounts(h, own) + (if ShortText(own) then Mounts(h, JoinTables([t])) else [])
  {
    JoinMountsInTurn(h, [own, t]);
    JoinMountsInTurn(h, [t]);
    assert [own, t][1..] == [t];
  }

  lemma SameRest(a: seq<Call>, b: seq<Call>, c: seq<Call>)
    ensures a + b == a + c <==> b == c
  {
    assert (a + b)[|a|..] == b && (a + c)[|a|..] == c;
  }

  /** As Dial joins them, behind a table of the user and without symbolic links: the mounts are the user's
      and then those of the namespace, if and only if there are none, or the condition above holds and no
      line of the user's table is too long for the scanner. */
  lemma DialMountsExactly(h: Host, own: string, s: string)
    requires "bind" in h.convert && h.links == map[] && Binds(s).1.None?
    ensures Mounts(h, JoinTables([own, Table(Binds(s).0)])) == Mounts(h, own) + AllExpected(h, Binds(s).0)
            <==> && (Binds(s).0 == [] || ShortText(own))
                 && forall b | b in Binds(s).0 :: Fielded(b) && !TooLong(Line(b))
  {
    var binds := Binds(s).0;
    TwoInTurn(h, own, Table(binds));
    if ShortText(own) {
      NamespaceIsMountedExactly(h, s);
      SameRest(Mounts(h, own), Mounts(h, JoinTables([Table(binds)])), AllExpected(h, binds));
    } else {
      SameRest(Mounts(h, own), [], AllExpected(h, binds));
      assert |AllExpected(h, binds)| == |binds|;
    }
  }
}
