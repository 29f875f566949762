// Choosing servers found by DNS-SD (ds/ds.go): candidates are filtered by the requirements of a query,
// sorted by several keys, and the first n are returned.
module Select {
  import opened Wrappers
  import T = Text

  /** A 64-bit float, as far as comparisons see it. */
  datatype Float = NaN | NegInf | Num(value: real) | PosInf

  predicate Below(a: Float, b: Float) {
    match (a, b)
    case (NaN, _) => false
    case (_, NaN) => false
    case (Num(x), Num(y)) => x < y
    case (NegInf, _) => b != NegInf
    case (Num(_), _) => b == PosInf
    case (PosInf, _) => false
  }

  type Text = map<string, string>

  /** What `strconv.ParseFloat` makes of the strings it accepts without an error. */
  type Floats = map<string, Float>

  datatype Entry = Entry(name: string, text: Text)

  function Value(src: Text, key: string): string {
    if key in src then src[key] else ""
  }

  // ----- requirements -----

  type Query = map<string, seq<string>>

  /** The program indexes the first character of the first value of every key but "sort", and the first
      character of each sort key: a query without one makes it panic. */
  predicate Indexable(req: Query) {
    && (forall k | k in req && k != "sort" :: req[k] != [] && req[k][0] != "")
    && ("sort" in req ==> forall i | 0 <= i < |req["sort"]| :: req["sort"][i] != "")
  }

  /** Whether one key of a query is satisfied. */
  predicate Meets(fs: Floats, src: Text, key: string, vals: seq<string>)
    requires vals != [] && vals[0] != ""
  {
    var op, arg := vals[0][0], vals[0][1..];
    var val := Value(src, key);
    if op == '*' then true
    else if op == '<' || op == '>' then
      && arg != "" && arg in fs && val != "" && val in fs
      && (op == '<' ==> !Below(fs[arg], fs[val]))
      && (op == '>' ==> !Below(fs[val], fs[arg]))
    else if op == '!' then arg != "" && arg != val
    else val in vals
  }

  predicate Satisfies(fs: Floats, src: Text, req: Query)
    requires Indexable(req)
  {
    forall k | k in req && k != "sort" :: Meets(fs, src, k, req[k])
  }

  /** `required`: the keys come in any order. */
  method Required(fs: Floats, src: Text, req: Query) returns (ok: bool)
    requires Indexable(req)
    ensures ok == Satisfies(fs, src, req)
  {
    var keys := req.Keys;
    while keys != {}
      invariant keys <= req.Keys
      invariant forall k | k in req && k != "sort" && k !in keys :: Meets(fs, src, k, req[k])
      decreases |keys|
    {
      var k :| k in keys;
      keys := keys - {k};
      if k == "sort" {
        continue;
      }
      var first := req[k][0];
      var val := Value(src, k);
      if first[0] == '*' {
        continue;
      } else if first[0] == '<' || first[0] == '>' {
        if |first| < 2 || first[1..] !in fs || |val| == 0 || val !in fs {
          assert !Meets(fs, src, k, req[k]);
          return false;
        }
        if (first[0] == '<' && Below(fs[first[1..]], fs[val])) || (first[0] == '>' && Below(fs[val], fs[first[1..]])) {
          assert !Meets(fs, src, k, req[k]);
          return false;
        }
      } else if first[0] == '!' {
        if |first| < 2 || first[1..] == val {
          assert !Meets(fs, src, k, req[k]);
          return false;
        }
      } else if val !in req[k] {
        assert !Meets(fs, src, k, req[k]);
        return false;
      }
    }
    ok := true;
  }

  /** The bounds of '<' and '>' are inclusive: a number meets both exactly if it is the bound. */
  lemma BoundsAreInclusive(fs: Floats, src: Text, key: string, arg: string)
    requires arg in fs && fs[arg] != NaN && arg != ""
    requires key in src && src[key] != "" && src[key] in fs && fs[src[key]] != NaN
    ensures Meets(fs, src, key, ["<" + arg]) && Meets(fs, src, key, [">" + arg]) <==> fs[src[key]] == fs[arg]
    ensures Meets(fs, src, key, ["<" + arg]) || Meets(fs, src, key, [">" + arg])
  {
    assert ("<" + arg)[1..] == arg && (">" + arg)[1..] == arg;
  }

  // ----- sort keys -----

  datatype Op = Ascending | Descending | Longer | Shorter

  datatype Key = Key(op: Op, name: string)

  /** One sort key: an operator and a name, or a name alone. */
  function ParseKey(element: string): Option<Key>
    requires element != ""
  {
    var c := element[0];
    if c == '<' || c == '>' || c == '=' || c == '!' then
      if |element| < 2 then None
      else
        Some(Key(if c == '<' then Ascending else if c == '>' then Descending
                 else if c == '=' then Longer else Shorter, element[1..]))
    else Some(Key(Ascending, element))
  }

  function ParseKeys(elements: seq<string>): Option<seq<Key>>
    requires forall i | 0 <= i < |elements| :: elements[i] != ""
  {
    if elements == [] then Some([])
    else
      match (ParseKey(elements[0]), ParseKeys(elements[1..]))
      case (Some(k), Some(ks)) => Some([k] + ks)
      case _ => None
  }

  /** The comparison `genSortTxt` makes for a key. The operators '=' and '!' compare the lengths of the
      values in bytes. A value that is no number makes the numeric comparisons false. */
  predicate KeyLess(fs: Floats, k: Key, a: Entry, b: Entry) {
    var x, y := Value(a.text, k.name), Value(b.text, k.name);
    match k.op
    case Longer => T.Size(x) > T.Size(y)
    case Shorter => T.Size(x) < T.Size(y)
    case Ascending => x in fs && y in fs && Below(fs[x], fs[y])
    case Descending => x in fs && y in fs && Below(fs[y], fs[x])
  }

  /** `multiSorter.Less`. */
  predicate Less(fs: Floats, keys: seq<Key>, a: Entry, b: Entry)
    requires keys != []
  {
    if |keys| == 1 then KeyLess(fs, keys[0], a, b)
    else if KeyLess(fs, keys[0], a, b) then true
    else if KeyLess(fs, keys[0], b, a) then false
    else Less(fs, keys[1..], a, b)
  }

  // ----- when the comparison is an order -----

  /** The entry has a number, not NaN, under the key if that compares numbers. */
  predicate Ranked(fs: Floats, k: Key, e: Entry) {
    k.op.Longer? || k.op.Shorter? || (Value(e.text, k.name) in fs && fs[Value(e.text, k.name)] != NaN)
  }

  predicate AllRanked(fs: Floats, keys: seq<Key>, e: Entry) {
    forall i | 0 <= i < |keys| :: Ranked(fs, keys[i], e)
  }

  lemma BelowIsWeakOrder(a: Float, b: Float, c: Float)
    requires a != NaN && b != NaN && c != NaN
    ensures !(Below(a, b) && Below(b, a))
    ensures !Below(a, b) && !Below(b, c) ==> !Below(a, c)
  {
  }

  lemma KeyIsWeakOrder(fs: Floats, k: Key, a: Entry, b: Entry, c: Entry)
    requires Ranked(fs, k, a) && Ranked(fs, k, b) && Ranked(fs, k, c)
    ensures !(KeyLess(fs, k, a, b) && KeyLess(fs, k, b, a))
    ensures !KeyLess(fs, k, a, b) && !KeyLess(fs, k, b, c) ==> !KeyLess(fs, k, a, c)
  {
    if k.op.Ascending? || k.op.Descending? {
      var x, y, z := fs[Value(a.text, k.name)], fs[Value(b.text, k.name)], fs[Value(c.text, k.name)];
      BelowIsWeakOrder(x, y, z);
      BelowIsWeakOrder(z, y, x);
    }
  }

  lemma {:induction false} Asymmetric(fs: Floats, keys: seq<Key>, a: Entry, b: Entry)
    requires keys != [] && AllRanked(fs, keys, a) && AllRanked(fs, keys, b)
    ensures !(Less(fs, keys, a, b) && Less(fs, keys, b, a))
  {
    KeyIsWeakOrder(fs, keys[0], a, b, a);
    if |keys| > 1 {
      Asymmetric(fs, keys[1..], a, b);
    }
  }

  /** "Not less" is transitive, so "neither less" is, too. */
  lemma {:induction false} NotLessIsTransitive(fs: Floats, keys: seq<Key>, a: Entry, b: Entry, c: Entry)
    requires keys != []
    requires AllRanked(fs, keys, a) && AllRanked(fs, keys, b) && AllRanked(fs, keys, c)
    requires !Less(fs, keys, a, b) && !Less(fs, keys, b, c)
    ensures !Less(fs, keys, a, c)
  {
    var k := keys[0];
    KeyIsWeakOrder(fs, k, a, b, c);
    KeyIsWeakOrder(fs, k, b, c, a);
    KeyIsWeakOrder(fs, k, c, a, b);
    KeyIsWeakOrder(fs, k, c, b, a);
    KeyIsWeakOrder(fs, k, b, a, c);
    KeyIsWeakOrder(fs, k, a, c, b);
    if |keys| > 1 && !KeyLess(fs, k, b, a) && !KeyLess(fs, k, c, b) {
      NotLessIsTransitive(fs, keys[1..], a, b, c);
    }
  }

  ghost predicate StrictWeakOrder(less: (Entry, Entry) -> bool, s: set<Entry>) {
    && (forall a, b | a in s && b in s :: !(less(a, b) && less(b, a)))
    && (forall a, b, c | a in s && b in s && c in s :: !less(a, b) && !less(b, c) ==> !less(a, c))
  }

  /** The comparison by all keys is a strict weak order on candidates that have a number for every
      numeric key. */
  lemma LessIsStrictWeakOrder(fs: Floats, keys: seq<Key>, s: set<Entry>)
    requires keys != [] && forall e | e in s :: AllRanked(fs, keys, e)
    ensures StrictWeakOrder((a, b) => Less(fs, keys, a, b), s)
  {
    var less := (a, b) => Less(fs, keys, a, b);
    forall a, b | a in s && b in s ensures !(less(a, b) && less(b, a)) {
      Asymmetric(fs, keys, a, b);
    }
    forall a, b, c | a in s && b in s && c in s && !less(a, b) && !less(b, c) ensures !less(a, c) {
      NotLessIsTransitive(fs, keys, a, b, c);
    }
  }

  /** With one numeric key: an entry without a number is equal to every other, so the comparison is a
      strict weak order if and only if every entry has a number or no two numbers differ. */
  lemma OneKeyExactly(fs: Floats, k: Key, s: set<Entry>)
    requires k.op.Ascending? || k.op.Descending?
    ensures StrictWeakOrder((a, b) => Less(fs, [k], a, b), s)
            <==> || (forall e | e in s :: Ranked(fs, k, e))
                 || (forall a, b | a in s && b in s && Ranked(fs, k, a) && Ranked(fs, k, b) ::
                       fs[Value(a.text, k.name)] == fs[Value(b.text, k.name)])
  {
    var less := (a, b) => Less(fs, [k], a, b);
    if forall e | e in s :: Ranked(fs, k, e) {
      forall e | e in s ensures AllRanked(fs, [k], e) {
      }
      LessIsStrictWeakOrder(fs, [k], s);
    } else if a, b :| a in s && b in s && Ranked(fs, k, a) && Ranked(fs, k, b)
                     && fs[Value(a.text, k.name)] != fs[Value(b.text, k.name)] {
      var u :| u in s && !Ranked(fs, k, u);
      assert !less(a, u) && !less(u, b) && !less(b, u) && !less(u, a);
      assert less(a, b) || less(b, a);
    } else {
      forall a, b | a in s && b in s ensures !less(a, b) {
      }
    }
  }
}
