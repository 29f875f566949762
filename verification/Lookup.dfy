// Sorting the candidates in place and taking the first n (ds/ds.go multiSorter, sortEntries, Lookup).
module Lookup {
  import opened Wrappers
  import opened Select

  type Order = (Entry, Entry) -> bool

  /** No entry of `s` is less than one before it. */
  ghost predicate Ordered(lt: Order, s: seq<Entry>) {
    forall i, j | 0 <= i < j < |s| :: !lt(s[j], s[i])
  }

  /** The order is a strict weak order on the entries of `s`. */
  ghost predicate Orders(lt: Order, s: seq<Entry>) {
    StrictWeakOrder(lt, set e | e in s)
  }

  lemma SameOrders(lt: Order, s: seq<Entry>, t: seq<Entry>)
    requires Orders(lt, s) && multiset(s) == multiset(t)
    ensures Orders(lt, t)
  {
    assert forall e :: e in s <==> e in multiset(s);
    assert forall e :: e in t <==> e in multiset(t);
    assert (set e | e in s) == (set e | e in t);
  }

  function Swapped(s: seq<Entry>, i: nat, j: nat): seq<Entry>
    requires i < |s| && j < |s|
  {
    s[i := s[j]][j := s[i]]
  }

  lemma SwapPermutes(s: seq<Entry>, i: nat, j: nat)
    requires i < |s| && j < |s|
    ensures multiset(Swapped(s, i, j)) == multiset(s)
  {
  }

  // ----- one round of the sort -----

  /** The first `n` entries are ordered, but for the one at `hole`, which is not after those behind it. */
  ghost predicate Inserting(lt: Order, s: seq<Entry>, n: nat, hole: nat)
    requires hole < n <= |s|
  {
    && (forall i, j | 0 <= i < j < n && i != hole && j != hole :: !lt(s[j], s[i]))
    && (forall j | hole < j < n :: !lt(s[j], s[hole]))
  }

  lemma InsertStep(lt: Order, s: seq<Entry>, n: nat, hole: nat)
    requires 0 < hole < n <= |s| && Orders(lt, s)
    requires Inserting(lt, s, n, hole) && lt(s[hole], s[hole - 1])
    ensures Inserting(lt, Swapped(s, hole, hole - 1), n, hole - 1)
  {
    var t := Swapped(s, hole, hole - 1);
    assert s[hole] in s && s[hole - 1] in s;
    forall j | hole - 1 < j < n ensures !lt(t[j], t[hole - 1]) {
    }
    forall i, j | 0 <= i < j < n && i != hole - 1 && j != hole - 1 ensures !lt(t[j], t[i]) {
    }
  }

  lemma InsertDone(lt: Order, s: seq<Entry>, n: nat, hole: nat)
    requires hole < n <= |s| && Orders(lt, s)
    requires Inserting(lt, s, n, hole) && (hole > 0 ==> !lt(s[hole], s[hole - 1]))
    ensures Ordered(lt, s[..n])
  {
    forall i | 0 <= i < hole ensures !lt(s[hole], s[i]) {
      assert s[hole] in s && s[i] in s && s[hole - 1] in s;
    }
  }

  ghost predicate Underway(lt: Order, s0: seq<Entry>, s: seq<Entry>, n: nat, hole: nat)
    requires hole <= n < |s|
  {
    && multiset(s) == multiset(s0) && |s| == |s0|
    && (Orders(lt, s0) && Ordered(lt, s0[..n]) ==> Inserting(lt, s, n + 1, hole))
  }

  /** The entries are permuted, and if the first `n` were ordered, one more is now. */
  ghost predicate Inserted(lt: Order, s0: seq<Entry>, s: seq<Entry>, n: nat) {
    && multiset(s) == multiset(s0) && n < |s| == |s0|
    && (Orders(lt, s0) && Ordered(lt, s0[..n]) ==> Ordered(lt, s[..n + 1]))
  }

  lemma InsertBegins(lt: Order, s: seq<Entry>, n: nat)
    requires n < |s|
    ensures Underway(lt, s, s, n, n)
  {
    forall i, j | Ordered(lt, s[..n]) && 0 <= i < j < n ensures !lt(s[j], s[i]) {
      assert s[..n][i] == s[i] && s[..n][j] == s[j];
    }
  }

  lemma InsertGoesOn(lt: Order, s0: seq<Entry>, s: seq<Entry>, n: nat, hole: nat)
    requires 0 < hole <= n < |s| && Underway(lt, s0, s, n, hole)
    requires lt(s[hole], s[hole - 1])
    ensures Underway(lt, s0, Swapped(s, hole, hole - 1), n, hole - 1)
  {
    SwapPermutes(s, hole, hole - 1);
    if Orders(lt, s0) && Ordered(lt, s0[..n]) {
      SameOrders(lt, s0, s);
      InsertStep(lt, s, n + 1, hole);
    }
  }

  lemma InsertEnds(lt: Order, s0: seq<Entry>, s: seq<Entry>, n: nat, hole: nat)
    requires hole <= n < |s| && Underway(lt, s0, s, n, hole)
    requires hole > 0 ==> !lt(s[hole], s[hole - 1])
    ensures Inserted(lt, s0, s, n)
  {
    if Orders(lt, s0) && Ordered(lt, s0[..n]) {
      SameOrders(lt, s0, s);
      InsertDone(lt, s, n + 1, hole);
    }
  }

  // ----- the sorter -----

  /** `multiSorter.Less` on two entries: all comparisons but the last can decide, and the last one does. */
  predicate Lex(less: seq<Order>, a: Entry, b: Entry)
    requires less != []
  {
    if |less| == 1 then less[0](a, b)
    else if less[0](a, b) then true
    else if less[0](b, a) then false
    else Lex(less[1..], a, b)
  }

  function ByLex(less: seq<Order>): Order
    requires less != []
  {
    (a, b) => Lex(less, a, b)
  }

  class MultiSorter {
    const entries: array<Entry>
    const less: seq<Order>

    constructor (es: array<Entry>, fs: seq<Order>)
      ensures entries == es && less == fs
    {
      entries, less := es, fs;
    }

    /** `Swap`. */
    method Swap(i: nat, j: nat)
      requires i < entries.Length && j < entries.Length
      modifies entries
      ensures entries[..] == Swapped(old(entries[..]), i, j)
    {
      entries[i], entries[j] := entries[j], entries[i];
    }

    /** `Less`: the loop tries all comparisons but the last in both directions. */
    method IsLess(i: nat, j: nat) returns (r: bool)
      requires i < entries.Length && j < entries.Length && less != []
      ensures r == ByLex(less)(entries[i], entries[j])
    {
      var p, q := entries[i], entries[j];
      var k := 0;
      assert less[0..] == less;
      while k < |less| - 1
        invariant k <= |less| - 1
        invariant Lex(less, p, q) == Lex(less[k..], p, q)
      {
        assert less[k..][1..] == less[k + 1..];
        if less[k](p, q) {
          return true;
        }
        if less[k](q, p) {
          return false;
        }
        k := k + 1;
      }
      r := less[k](p, q);
    }

    /** One round of an insertion sort by `Less` and `Swap`: an entry moves forward as long as it is less
        than the one before. */
    method Insert(n: nat)
      requires n < entries.Length && less != []
      modifies entries
      ensures Inserted(ByLex(less), old(entries[..]), entries[..], n)
    {
      ghost var s0, lt := entries[..], ByLex(less);
      var j := n;
      InsertBegins(lt, s0, n);
      while j > 0
        invariant 0 <= j <= n
        invariant Underway(lt, s0, entries[..], n, j)
      {
        var out := IsLess(j, j - 1);
        if !out {
          break;
        }
        InsertGoesOn(lt, s0, entries[..], n, j);
        Swap(j, j - 1);
        j := j - 1;
      }
      InsertEnds(lt, s0, entries[..], n, j);
    }

    /** `sort.Sort` on this sorter: it permutes the entries, and orders them where `Less` is an order. */
    method Sort()
      requires less != []
      modifies entries
      ensures multiset(entries[..]) == multiset(old(entries[..]))
      ensures Orders(ByLex(less), old(entries[..])) ==> Ordered(ByLex(less), entries[..])
    {
      ghost var s0, lt := entries[..], ByLex(less);
      for i := 0 to entries.Length
        invariant multiset(entries[..]) == multiset(s0)
        invariant Orders(lt, s0) ==> Ordered(lt, entries[..][..i])
      {
        if Orders(lt, s0) {
          SameOrders(lt, s0, entries[..]);
        }
        Insert(i);
      }
      assert entries[..][..entries.Length] == entries[..];
    }
  }

  // ----- the comparisons of a query -----

  function By(fs: Floats, keys: seq<Key>): Order
    requires keys != []
  {
    (a, b) => Less(fs, keys, a, b)
  }

  /** `genSortTxt`. */
  function GenSortTxt(fs: Floats, k: Key): Order {
    (a, b) => KeyLess(fs, k, a, b)
  }

  function Comparisons(fs: Floats, keys: seq<Key>): seq<Order> {
    seq(|keys|, i requires 0 <= i < |keys| => GenSortTxt(fs, keys[i]))
  }

  lemma {:induction false} LexIsLess(fs: Floats, keys: seq<Key>, a: Entry, b: Entry)
    requires keys != []
    ensures Lex(Comparisons(fs, keys), a, b) == Less(fs, keys, a, b)
  {
    if |keys| > 1 {
      assert Comparisons(fs, keys)[1..] == Comparisons(fs, keys[1..]);
      LexIsLess(fs, keys[1..], a, b);
    }
  }

  lemma SameOrdering(lt: Order, less: Order, s: seq<Entry>)
    requires forall a, b :: lt(a, b) == less(a, b)
    ensures Orders(lt, s) == Orders(less, s) && Ordered(lt, s) == Ordered(less, s)
  {
  }

  lemma SortedByKeys(fs: Floats, keys: seq<Key>, s: seq<Entry>)
    requires keys != []
    ensures Orders(ByLex(Comparisons(fs, keys)), s) == Orders(By(fs, keys), s)
    ensures Ordered(ByLex(Comparisons(fs, keys)), s) == Ordered(By(fs, keys), s)
  {
    var lt, less := ByLex(Comparisons(fs, keys)), By(fs, keys);
    forall a, b ensures lt(a, b) == less(a, b) {
      LexIsLess(fs, keys, a, b);
    }
    SameOrdering(lt, less, s);
  }

  /** `sortEntries`: without a sort key, or with one that has an operator but no name, nothing moves. */
  method SortEntries(fs: Floats, req: Query, entries: array<Entry>)
    requires Indexable(req)
    modifies entries
    ensures multiset(entries[..]) == multiset(old(entries[..]))
    ensures SortKeys(req) == [] ==> entries[..] == old(entries[..])
    ensures SortKeys(req) != [] && Orders(By(fs, SortKeys(req)), old(entries[..]))
            ==> Ordered(By(fs, SortKeys(req)), entries[..])
  {
    if "sort" !in req || req["sort"] == [] {
      return;
    }
    var less := MakeKeys(req["sort"]);
    KeysLength(req["sort"]);
    if less.None? {
      return;
    }
    ghost var s0 := entries[..];
    var ms := new MultiSorter(entries, Comparisons(fs, less.value));
    ms.Sort();
    SortedByKeys(fs, less.value, s0);
    SortedByKeys(fs, less.value, entries[..]);
  }

  /** The loop of `sortEntries` over the sort keys. */
  method MakeKeys(elements: seq<string>) returns (keys: Option<seq<Key>>)
    requires forall i | 0 <= i < |elements| :: elements[i] != ""
    ensures keys == ParseKeys(elements)
  {
    var less: seq<Key> := [];
    for i := 0 to |elements|
      invariant ParseKeys(elements[..i]) == Some(less)
    {
      var k := ParseKey(elements[i]);
      KeysSnoc(elements, i);
      if k.None? {
        return None;
      }
      less := less + [k.value];
    }
    assert elements[..|elements|] == elements;
    keys := Some(less);
  }

  /** The keys the entries are sorted by; none if there are no sort keys or one of them is bad. */
  function SortKeys(req: Query): seq<Key>
    requires Indexable(req)
  {
    if "sort" !in req then []
    else match ParseKeys(req["sort"]) case Some(keys) => keys case None => []
  }

  lemma {:induction false} KeysAppend(a: seq<string>, b: seq<string>)
    requires forall i | 0 <= i < |a| :: a[i] != ""
    requires forall i | 0 <= i < |b| :: b[i] != ""
    ensures ParseKeys(a + b) == match (ParseKeys(a), ParseKeys(b))
                                case (Some(x), Some(y)) => Some(x + y)
                                case _ => None
  {
    if a == [] {
      assert a + b == b;
      if ParseKeys(b).Some? {
        assert [] + ParseKeys(b).value == ParseKeys(b).value;
      }
    } else {
      assert (a + b)[0] == a[0] && (a + b)[1..] == a[1..] + b;
      KeysAppend(a[1..], b);
      if ParseKey(a[0]).Some? && ParseKeys(a[1..]).Some? && ParseKeys(b).Some? {
        var k, x, y := ParseKey(a[0]).value, ParseKeys(a[1..]).value, ParseKeys(b).value;
        assert [k] + (x + y) == [k] + x + y;
      }
    }
  }

  lemma KeysSnoc(elements: seq<string>, i: nat)
    requires i < |elements| && forall k | 0 <= k < |elements| :: elements[k] != ""
    requires ParseKeys(elements[..i]).Some?
    ensures ParseKey(elements[i]).None? ==> ParseKeys(elements).None?
    ensures ParseKey(elements[i]).Some?
            ==> ParseKeys(elements[..i + 1]) == Some(ParseKeys(elements[..i]).value + [ParseKey(elements[i]).value])
  {
    var one := [elements[i]];
    assert one[1..] == [];
    assert elements[..i] + one == elements[..i + 1];
    KeysAppend(elements[..i], one);
    assert elements[..i + 1] + elements[i + 1..] == elements;
    KeysAppend(elements[..i + 1], elements[i + 1..]);
    if ParseKey(elements[i]).Some? {
      var k := ParseKey(elements[i]).value;
      assert [k] + [] == [k];
    }
  }

  lemma {:induction false} KeysLength(elements: seq<string>)
    requires forall k | 0 <= k < |elements| :: elements[k] != ""
    ensures ParseKeys(elements).Some? ==> |ParseKeys(elements).value| == |elements|
  {
    if elements != [] {
      KeysLength(elements[1..]);
    }
  }

  // ----- Lookup -----

  /** The instance part of a query: empty, or the name the candidate must have. */
  predicate IsInstance(e: Entry, instance: Option<string>) {
    instance.None? || e.name == instance.value
  }

  predicate Matches(fs: Floats, req: Query, instance: Option<string>, e: Entry)
    requires Indexable(req)
  {
    Satisfies(fs, e.text, req) && IsInstance(e, instance)
  }

  function Filter(keep: Entry -> bool, s: seq<Entry>): seq<Entry> {
    if s == [] then []
    else Filter(keep, s[..|s| - 1]) + if keep(s[|s| - 1]) then [s[|s| - 1]] else []
  }

  lemma {:induction false} FilterIsExact(keep: Entry -> bool, s: seq<Entry>, e: Entry)
    ensures multiset(Filter(keep, s))[e] == if keep(e) then multiset(s)[e] else 0
  {
    if s != [] {
      var p, last := s[..|s| - 1], s[|s| - 1];
      FilterIsExact(keep, p, e);
      assert s == p + [last];
    }
  }

  function Matching(fs: Floats, req: Query, instance: Option<string>, found: seq<Entry>): seq<Entry>
    requires Indexable(req)
  {
    Filter(e => Matches(fs, req, instance, e), found)
  }

  /** Everything that was found and matches is among the matching, as often as it was found. */
  lemma MatchingIsExact(fs: Floats, req: Query, instance: Option<string>, found: seq<Entry>, e: Entry)
    requires Indexable(req)
    ensures multiset(Matching(fs, req, instance, found))[e]
         == if Matches(fs, req, instance, e) then multiset(found)[e] else 0
  {
    FilterIsExact(e => Matches(fs, req, instance, e), found, e);
  }

  function Count(n: nat, matches: nat): nat {
    if n == 0 then (if matches == 0 then 0 else 1)
    else if n < matches then n
    else matches
  }

  datatype Error = NotExist

  /** `chosen` is the front of an arrangement of the candidates; if the sort keys order the candidates,
      the arrangement is ordered, and without sort keys it is the order in which they were found. */
  ghost predicate IsFront(fs: Floats, keys: seq<Key>, matching: seq<Entry>, chosen: seq<Entry>, rest: seq<Entry>) {
    && multiset(chosen + rest) == multiset(matching)
    && (keys == [] ==> chosen + rest == matching)
    && (keys != [] && Orders(By(fs, keys), matching) ==> Ordered(By(fs, keys), chosen + rest))
  }

  /** The callback of the browser: what matches is collected. */
  method Collect(fs: Floats, req: Query, instance: Option<string>, found: seq<Entry>) returns (responses: seq<Entry>)
    requires Indexable(req)
    ensures responses == Matching(fs, req, instance, found)
  {
    ghost var keep := e => Matches(fs, req, instance, e);
    responses := [];
    for i := 0 to |found|
      invariant responses == Filter(keep, found[..i])
    {
      assert found[..i + 1][..i] == found[..i];
      var ok := Required(fs, found[i].text, req);
      if ok {
        if instance == None || found[i].name == instance.value {
          responses := responses + [found[i]];
        }
      }
      assert keep(found[i]) == (ok && IsInstance(found[i], instance));
    }
    assert found[..|found|] == found;
  }

  /** The loop that fills the result. */
  method Front(responses: seq<Entry>, n: nat) returns (ret: seq<Entry>)
    ensures ret == responses[..Count(n, |responses|)]
  {
    ret := [];
    for i := 0 to |responses|
      invariant ret == responses[..i] && (i > 0 ==> i < n)
    {
      ret := ret + [responses[i]];
      if |ret| >= n {
        break;
      }
    }
  }

  lemma FrontOfSorted(fs: Floats, keys: seq<Key>, matching: seq<Entry>, sorted: seq<Entry>, k: nat)
    requires k <= |sorted| && multiset(sorted) == multiset(matching)
    requires keys == [] ==> sorted == matching
    requires keys != [] && Orders(By(fs, keys), matching) ==> Ordered(By(fs, keys), sorted)
    ensures IsFront(fs, keys, matching, sorted[..k], sorted[k..])
  {
    assert sorted[..k] + sorted[k..] == sorted;
  }

  method Slice(s: seq<Entry>) returns (a: array<Entry>)
    ensures fresh(a) && a[..] == s
  {
    a := new Entry[|s|](i requires 0 <= i < |s| => s[i]);
    assert a[..] == s;
  }

  /** The selection part of `Lookup`, on the candidates that the browser reports. Asking for none gives
      one; asking for fewer than none is not possible. */
  method Choose(fs: Floats, req: Query, instance: Option<string>, found: seq<Entry>, n: nat)
    returns (r: Result<seq<Entry>, Error>)
    requires Indexable(req)
    ensures var matching := Matching(fs, req, instance, found);
            match r
            case Err(_) => matching == []
            case Ok(chosen) =>
              && matching != []
              && |chosen| == (if n == 0 then 1 else if n < |matching| then n else |matching|)
              && exists rest :: IsFront(fs, SortKeys(req), matching, chosen, rest)
  {
    var responses := Collect(fs, req, instance, found);
    if responses == [] {
      return Err(NotExist);
    }
    var entries := Slice(responses);
    SortEntries(fs, req, entries);
    var ret := Front(entries[..], n);
    FrontOfSorted(fs, SortKeys(req), responses, entries[..], Count(n, |responses|));
    r := Ok(ret);
  }

  /** Every chosen entry was found and satisfies the query. */
  lemma ChosenMatch(fs: Floats, req: Query, instance: Option<string>, found: seq<Entry>,
                    chosen: seq<Entry>, rest: seq<Entry>)
    requires Indexable(req)
    requires IsFront(fs, SortKeys(req), Matching(fs, req, instance, found), chosen, rest)
    ensures forall e | e in chosen :: e in found && Matches(fs, req, instance, e)
  {
    forall e | e in chosen ensures e in found && Matches(fs, req, instance, e) {
      MatchingIsExact(fs, req, instance, found, e);
      assert e in multiset(chosen + rest);
      assert e in multiset(found) ==> e in found;
    }
  }

  /** If the sort keys order the candidates, none that is left out comes before a chosen one. */
  lemma NoneLeftOutIsLess(fs: Floats, keys: seq<Key>, matching: seq<Entry>, chosen: seq<Entry>, rest: seq<Entry>)
    requires keys != [] && IsFront(fs, keys, matching, chosen, rest)
    requires forall i | 0 <= i < |matching| :: AllRanked(fs, keys, matching[i])
    ensures forall a, b | a in chosen && b in rest :: !Less(fs, keys, b, a)
    ensures Ordered(By(fs, keys), chosen)
  {
    LessIsStrictWeakOrder(fs, keys, set e | e in matching);
    var all := chosen + rest;
    forall a, b | a in chosen && b in rest ensures !Less(fs, keys, b, a) {
      var i :| 0 <= i < |chosen| && chosen[i] == a;
      var j :| 0 <= j < |rest| && rest[j] == b;
      assert all[i] == a && all[|chosen| + j] == b;
      assert !By(fs, keys)(all[|chosen| + j], all[i]);
    }
    forall i, j | 0 <= i < j < |chosen| ensures !By(fs, keys)(chosen[j], chosen[i]) {
      assert all[i] == chosen[i] && all[j] == chosen[j];
    }
  }
}
