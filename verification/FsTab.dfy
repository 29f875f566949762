// The mount table of a p9cpu session: `parse_namespace` makes it from a namespace string (lib.rs), and
// the server fills in the port of the 9P forward when the session starts (server.rs).
module FsTab {
  import opened Text
  import TextLaws

  datatype Entry = Entry(spec: string, file: string, vfstype: string, mntops: string, freq: nat, passno: nat)

  const NINEP_MOUNT := "mnt9p"

  // ----- parse_namespace -----

  /** A part of a namespace: a target and a source, or nothing if it has more than one '='. */
  datatype Part = Bad | Good(target: string, source: string)

  function PartOf(text: string): Part {
    var fields := Split(text, '=');
    if |fields| > 2 then Bad else Good(fields[0], if |fields| > 1 then fields[1] else fields[0])
  }

  function PartsOf(namespace: string): seq<Part> {
    var texts := Split(namespace, ':');
    seq(|texts|, i requires 0 <= i < |texts| => PartOf(texts[i]))
  }

  function BindOf(tmp: string, part: Part): Entry
    requires part.Good?
  {
    Entry(tmp + "/" + NINEP_MOUNT + part.source, part.target, "none", "defaults,bind", 0, 0)
  }

  function Head(tmp: string): Entry {
    Entry("", tmp + "/" + NINEP_MOUNT, "9p", "", 0, 0)
  }

  /** Part `q` is good and the first good one with its target. */
  predicate IsFirst(parts: seq<Part>, q: nat)
    requires q < |parts|
  {
    parts[q].Good? && forall p | 0 <= p < q && parts[p].Good? :: parts[p].target != parts[q].target
  }

  /** The places of the flags that are set, in order. */
  function Places(flags: seq<bool>): (qs: seq<nat>)
    ensures forall i | 0 <= i < |qs| :: qs[i] < |flags| && flags[qs[i]]
  {
    if flags == [] then []
    else Places(flags[..|flags| - 1]) + if flags[|flags| - 1] then [|flags| - 1] else []
  }

  function Flags(parts: seq<Part>): seq<bool> {
    seq(|parts|, i requires 0 <= i < |parts| => IsFirst(parts, i))
  }

  /** The places of the first good occurrences of the targets. */
  function Firsts(parts: seq<Part>): (qs: seq<nat>)
    ensures forall i | 0 <= i < |qs| :: qs[i] < |parts| && IsFirst(parts, qs[i])
  {
    Places(Flags(parts))
  }

  function Binds(tmp: string, parts: seq<Part>, qs: seq<nat>): seq<Entry>
    requires forall i | 0 <= i < |qs| :: qs[i] < |parts| && parts[qs[i]].Good?
  {
    seq(|qs|, i requires 0 <= i < |qs| => BindOf(tmp, parts[qs[i]]))
  }

  function Parse(namespace: string, tmp: string): seq<Entry> {
    if namespace == "" then []
    else
      var parts := PartsOf(namespace);
      var binds := Binds(tmp, parts, Firsts(parts));
      if binds == [] then [] else [Head(tmp)] + binds
  }

  /** What the loop has made of the first `n` parts. */
  ghost predicate Done(tmp: string, parts: seq<Part>, n: nat, targets: set<string>, result: seq<Entry>)
    requires n <= |parts|
  {
    && (forall t :: t in targets <==> exists p | 0 <= p < n :: parts[p].Good? && parts[p].target == t)
    && var qs := Places(Flags(parts)[..n]);
       (forall i | 0 <= i < |qs| :: parts[qs[i]].Good?) && result == [Head(tmp)] + Binds(tmp, parts, qs)
  }

  lemma PlacesNext(flags: seq<bool>, n: nat)
    requires n < |flags|
    ensures Places(flags[..n + 1]) == Places(flags[..n]) + if flags[n] then [n] else []
  {
    assert flags[..n + 1][..n] == flags[..n];
  }

  lemma DoneSkips(tmp: string, parts: seq<Part>, n: nat, targets: set<string>, result: seq<Entry>)
    requires n < |parts| && Done(tmp, parts, n, targets, result)
    requires parts[n].Bad? || parts[n].target in targets
    ensures Done(tmp, parts, n + 1, targets, result)
  {
    PlacesNext(Flags(parts), n);
    assert Places(Flags(parts)[..n + 1]) == Places(Flags(parts)[..n]);
  }

  lemma DoneAdds(tmp: string, parts: seq<Part>, n: nat, targets: set<string>, result: seq<Entry>)
    requires n < |parts| && Done(tmp, parts, n, targets, result)
    requires parts[n].Good? && parts[n].target !in targets
    ensures Done(tmp, parts, n + 1, targets + {parts[n].target}, result + [BindOf(tmp, parts[n])])
  {
    var qs := Places(Flags(parts)[..n]);
    PlacesNext(Flags(parts), n);
    assert IsFirst(parts, n);
    assert Binds(tmp, parts, qs + [n]) == Binds(tmp, parts, qs) + [BindOf(tmp, parts[n])];
  }

  /** `parse_namespace`. */
  method ParseNamespace(namespace: string, tmp: string) returns (result: seq<Entry>)
    ensures result == Parse(namespace, tmp)
  {
    result := [];
    if namespace == "" {
      return;
    }
    result := result + [Head(tmp)];
    var targets: set<string> := {};
    ghost var all := PartsOf(namespace);
    var parts := Split(namespace, ':');
    for i := 0 to |parts|
      invariant Done(tmp, all, i, targets, result)
    {
      var part := PartOf(parts[i]);
      if part.Bad? {
        DoneSkips(tmp, all, i, targets, result);
        continue;
      }
      if part.target in targets {
        DoneSkips(tmp, all, i, targets, result);
        continue;
      }
      DoneAdds(tmp, all, i, targets, result);
      targets := targets + {part.target};
      result := result + [BindOf(tmp, part)];
    }
    assert Flags(all)[..|all|] == Flags(all);
    if |result| == 1 {
      result := [];
    }
  }

  // ----- what the table holds -----

  /** What a good part says: the target before the '=' and the source after it, or one name for both. */
  lemma PartIs(text: string)
    ensures match PartOf(text)
            case Good(t, s) =>
              '=' !in t && '=' !in s && ((t == s == text) || text == t + "=" + s)
            case Bad => |Split(text, '=')| > 2
  {
    SplitParts(text, '=');
    JoinSplit(text, '=');
    var fields := Split(text, '=');
    if |fields| == 2 {
      assert fields[1..] == [fields[1]];
    }
  }

  /** Every pair without '=' in it can be written. */
  lemma PairsAreParts(target: string, source: string)
    requires '=' !in target && '=' !in source
    ensures PartOf(target + "=" + source) == Good(target, source) && PartOf(target) == Good(target, target)
  {
    assert target + "=" + source == target + ['='] + source;
    SplitAt(target, '=', source);
    SplitNothing(target, '=');
    SplitNothing(source, '=');
  }

  lemma {:induction false} PlacesAre(flags: seq<bool>)
    ensures var qs := Places(flags);
            && (forall i, j | 0 <= i < j < |qs| :: qs[i] < qs[j])
            && (forall q: nat :: q in qs <==> q < |flags| && flags[q])
  {
    if flags != [] {
      var n := |flags| - 1;
      PlacesAre(flags[..n]);
      var qs := Places(flags[..n]);
      forall q: nat | q < |flags| && flags[q] ensures q in Places(flags) {
        if q < n {
          assert q in qs;
        } else {
          assert Places(flags) == qs + [n];
        }
      }
    }
  }

  lemma {:induction false} FirstOccurrence(parts: seq<Part>, q: nat) returns (p: nat)
    requires q < |parts| && parts[q].Good?
    ensures p <= q && IsFirst(parts, p) && parts[p].target == parts[q].target
    decreases q
  {
    if IsFirst(parts, q) {
      p := q;
    } else {
      var r :| 0 <= r < q && parts[r].Good? && parts[r].target == parts[q].target;
      p := FirstOccurrence(parts, r);
    }
  }

  /** The places are the first good occurrences, in order. */
  lemma FirstsAre(parts: seq<Part>)
    ensures var qs := Firsts(parts);
            && (forall i, j | 0 <= i < j < |qs| :: qs[i] < qs[j])
            && (forall q: nat :: q in qs <==> q < |parts| && IsFirst(parts, q))
  {
    PlacesAre(Flags(parts));
  }

  /** The targets of the binds are pairwise distinct. */
  lemma TargetsAreDistinct(tmp: string, parts: seq<Part>)
    ensures var binds := Binds(tmp, parts, Firsts(parts));
            forall i, j | 0 <= i < j < |binds| :: binds[i].file != binds[j].file
  {
    var qs, binds := Firsts(parts), Binds(tmp, parts, Firsts(parts));
    FirstsAre(parts);
    forall i, j | 0 <= i < j < |binds| ensures binds[i].file != binds[j].file {
      assert qs[i] < qs[j] && IsFirst(parts, qs[j]) && IsFirst(parts, qs[i]);
    }
  }

  /** The target of every good part is in the table, from its first good occurrence. */
  lemma NoTargetIsMissing(tmp: string, parts: seq<Part>, q: nat) returns (k: nat)
    requires q < |parts| && parts[q].Good?
    ensures k < |Firsts(parts)| && Firsts(parts)[k] <= q
    ensures Binds(tmp, parts, Firsts(parts))[k].file == parts[q].target
  {
    var p := FirstOccurrence(parts, q);
    FirstsAre(parts);
    k :| 0 <= k < |Firsts(parts)| && Firsts(parts)[k] == p;
  }

  /** The table is empty, which it is exactly when no part is good, or it begins with the 9P entry and
      goes on with one bind for the first good occurrence of each target, in order. */
  lemma TableIs(namespace: string, tmp: string)
    ensures var r, parts := Parse(namespace, tmp), PartsOf(namespace);
            && (r == [] <==> namespace == "" || forall q | 0 <= q < |parts| :: parts[q].Bad?)
            && (r != [] ==> r == [Head(tmp)] + Binds(tmp, parts, Firsts(parts)))
  {
    var parts := PartsOf(namespace);
    var qs := Firsts(parts);
    assert qs != [] ==> IsFirst(parts, qs[0]);
    if q :| 0 <= q < |parts| && parts[q].Good? {
      var k := NoTargetIsMissing(tmp, parts, q);
    }
  }

  /** In the words of the table: first the place of the 9P mount, without an address, and then for each
      target in order a bind of its source below that place. */
  lemma TableSays(namespace: string, tmp: string)
    ensures var r, parts := Parse(namespace, tmp), PartsOf(namespace);
            var qs := Firsts(parts);
            r != [] ==>
              && |r| == |qs| + 1
              && r[0] == Entry("", tmp + "/mnt9p", "9p", "", 0, 0)
              && forall k | 0 <= k < |qs| ::
                   r[k + 1] == Entry(tmp + "/mnt9p" + parts[qs[k]].source, parts[qs[k]].target, "none",
                                     "defaults,bind", 0, 0)
  {
    TableIs(namespace, tmp);
    assert "/" + NINEP_MOUNT == "/mnt9p";
    assert forall k | 0 <= k < |Firsts(PartsOf(namespace))| ::
        tmp + "/" + NINEP_MOUNT + PartsOf(namespace)[Firsts(PartsOf(namespace))[k]].source
        == tmp + "/mnt9p" + PartsOf(namespace)[Firsts(PartsOf(namespace))[k]].source;
  }

  // ----- the rewrite of `start` -----

  predicate IsNinep(tab: Entry, tmp: string) {
    tab.vfstype == "9p" && tab.file == tmp + "/" + NINEP_MOUNT
  }

  function Connected(tab: Entry, port: nat): Entry {
    tab.(spec := "127.0.0.1", mntops := "version=9p2000.L,trans=tcp,port=" + Decimal(port))
  }

  function Rewrite(fstab: seq<Entry>, tmp: string, port: nat): seq<Entry> {
    if fstab == [] then []
    else if IsNinep(fstab[0], tmp) then [Connected(fstab[0], port)] + fstab[1..]
    else [fstab[0]] + Rewrite(fstab[1..], tmp, port)
  }

  lemma {:induction false} RewriteAt(fstab: seq<Entry>, tmp: string, port: nat, k: nat)
    requires k <= |fstab| && forall i | 0 <= i < k :: !IsNinep(fstab[i], tmp)
    requires k < |fstab| ==> IsNinep(fstab[k], tmp)
    ensures Rewrite(fstab, tmp, port) == if k < |fstab| then fstab[k := Connected(fstab[k], port)] else fstab
  {
    if fstab != [] {
      if k > 0 {
        RewriteAt(fstab[1..], tmp, port, k - 1);
        assert [fstab[0]] + fstab[1..] == fstab;
      } else {
        assert [Connected(fstab[0], port)] + fstab[1..] == fstab[0 := Connected(fstab[0], port)];
      }
    }
  }

  /** The loop of `start` over the table: the first 9P entry at the place of the mount gets the address
      of the forward, nothing else changes. */
  method RewriteTable(fstab: array<Entry>, tmp: string, port: nat)
    modifies fstab
    ensures fstab[..] == Rewrite(old(fstab[..]), tmp, port)
  {
    ghost var before := fstab[..];
    for i := 0 to fstab.Length
      invariant fstab[..] == before
      invariant forall k | 0 <= k < i :: !IsNinep(before[k], tmp)
    {
      if fstab[i].vfstype == "9p" && fstab[i].file == tmp + "/" + NINEP_MOUNT {
        fstab[i] := fstab[i].(spec := "127.0.0.1");
        fstab[i] := fstab[i].(mntops := "version=9p2000.L,trans=tcp,port=" + Decimal(port));
        RewriteAt(before, tmp, port, i);
        assert fstab[..] == before[i := Connected(before[i], port)];
        return;
      }
    }
    RewriteAt(before, tmp, port, |before|);
  }

  /** With the user's own entries after it, the table of a namespace is rewritten in exactly its head. */
  lemma HeadIsRewritten(namespace: string, tmp: string, own: seq<Entry>, port: nat)
    ensures var table := Parse(namespace, tmp) + own;
            Parse(namespace, tmp) != [] ==>
              Rewrite(table, tmp, port) == [Connected(Head(tmp), port)] + table[1..]
  {
    var table := Parse(namespace, tmp) + own;
    if Parse(namespace, tmp) != [] {
      assert table[0] == Head(tmp);
      RewriteAt(table, tmp, port, 0);
      assert table[0 := Connected(table[0], port)] == [Connected(Head(tmp), port)] + table[1..];
    }
  }

  /** At most one entry of any table is rewritten: the first that is a 9P mount at that place. */
  lemma RewritesFirst(fstab: seq<Entry>, tmp: string, port: nat, i: nat)
    requires i < |fstab|
    ensures |Rewrite(fstab, tmp, port)| == |fstab|
    ensures Rewrite(fstab, tmp, port)[i]
         == if IsNinep(fstab[i], tmp) && forall k | 0 <= k < i :: !IsNinep(fstab[k], tmp)
            then Connected(fstab[i], port) else fstab[i]
  {
    var k := 0;
    while k < |fstab| && !IsNinep(fstab[k], tmp)
      invariant k <= |fstab| && forall j | 0 <= j < k :: !IsNinep(fstab[j], tmp)
    {
      k := k + 1;
    }
    RewriteAt(fstab, tmp, port, k);
  }

  /** ... and there the 9P entry gets the local address and the port. */
  lemma HeadSays(namespace: string, tmp: string, own: seq<Entry>, port: nat)
    requires Parse(namespace, tmp) != []
    ensures var r := Rewrite(Parse(namespace, tmp) + own, tmp, port);
            && r != [] && r[0].spec == "127.0.0.1" && r[0].file == tmp + "/mnt9p" && r[0].vfstype == "9p"
            && r[0].freq == r[0].passno == 0
            && exists digits: string :: && r[0].mntops == "version=9p2000.L,trans=tcp,port=" + digits
                                        && TextLaws.Number(digits) == port
  {
    HeadIsRewritten(namespace, tmp, own, port);
    TextLaws.DecimalIs(port);
    assert tmp + "/" + NINEP_MOUNT == tmp + "/mnt9p";
  }
}
