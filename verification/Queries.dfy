// What the operators of a query mean (ds/ds.go), told of the strings a user writes and of real numbers.
module Queries {
  import opened Wrappers
  import opened Select
  import opened Lookup
  import Utf8

  /** The value of a key is this number. */
  predicate Has(fs: Floats, src: Text, key: string, x: real) {
    key in src && src[key] != "" && src[key] in fs && fs[src[key]] == Num(x)
  }

  // ----- requirements -----

  /** "<" and ">" before a number: the value is a number that is at most, or at least, that one. */
  lemma BoundsMean(fs: Floats, src: Text, key: string, arg: string, a: real, more: seq<string>)
    requires arg != "" && arg in fs && fs[arg] == Num(a)
    ensures forall x :: Has(fs, src, key, x) ==>
              && (Meets(fs, src, key, ["<" + arg] + more) <==> x <= a)
              && (Meets(fs, src, key, [">" + arg] + more) <==> x >= a)
    ensures (key !in src || src[key] == "" || src[key] !in fs) ==>
              !Meets(fs, src, key, ["<" + arg] + more) && !Meets(fs, src, key, [">" + arg] + more)
  {
    assert ("<" + arg)[1..] == arg && (">" + arg)[1..] == arg;
  }

  /** ... and something else than a number after them is met by nothing. */
  lemma BadBoundsMean(fs: Floats, src: Text, key: string, arg: string, more: seq<string>)
    requires arg == "" || arg !in fs
    ensures !Meets(fs, src, key, ["<" + arg] + more) && !Meets(fs, src, key, [">" + arg] + more)
  {
    assert ("<" + arg)[1..] == arg && (">" + arg)[1..] == arg;
  }

  /** "*" is met by all, also without the key; "!" before a value by all that do not have that value; and
      without an operator the value must be one of those listed. A key that is missing has an empty value. */
  lemma OthersMean(fs: Floats, src: Text, key: string, arg: string, more: seq<string>, vals: seq<string>)
    requires vals != [] && vals[0] != "" && vals[0][0] !in {'*', '<', '>', '!'}
    ensures var val := if key in src then src[key] else "";
            && Meets(fs, src, key, ["*" + arg] + more)
            && (Meets(fs, src, key, ["!" + arg] + more) <==> arg != "" && val != arg)
            && (Meets(fs, src, key, vals) <==> val in vals)
  {
    assert ("!" + arg)[1..] == arg;
  }

  /** A candidate matches a query exactly if it meets each of its keys but "sort", and has the name that is
      asked for if one is. */
  lemma MatchMeans(fs: Floats, req: Query, instance: Option<string>, e: Entry)
    requires Indexable(req)
    ensures Matches(fs, req, instance, e)
            <==> (forall k | k in req && k != "sort" :: Meets(fs, e.text, k, req[k]))
                 && (instance == None || instance == Some(e.name))
  {
  }

  // ----- sort keys -----

  ghost predicate SortsBefore(fs: Floats, element: string, a: Entry, b: Entry) {
    element != "" && exists keys :: ParseKeys([element]) == Some(keys) && keys != [] && Less(fs, keys, a, b)
  }

  lemma OneKey(element: string)
    requires element != ""
    ensures [element][1..] == []
    ensures ParseKeys([element]) == match ParseKey(element) case Some(k) => Some([k]) case None => None
  {
    assert [element][1..] == [];
    if ParseKey(element).Some? {
      assert [ParseKey(element).value] + [] == [ParseKey(element).value];
    }
  }

  lemma ParsedKey(op: char, name: string)
    requires name != "" && op in {'<', '>', '=', '!'}
    ensures ParseKeys([[op] + name])
         == Some([Key(if op == '<' then Ascending else if op == '>' then Descending
                      else if op == '=' then Longer else Shorter, name)])
  {
    assert ([op] + name)[1..] == name && ([op] + name)[0] == op;
    OneKey([op] + name);
  }

  /** By numbers: "<" before a name, or a name alone, puts the smaller first, and ">" the larger. */
  lemma NumbersSort(fs: Floats, name: string, a: Entry, b: Entry, x: real, y: real)
    requires name != "" && Has(fs, a.text, name, x) && Has(fs, b.text, name, y)
    ensures SortsBefore(fs, "<" + name, a, b) <==> x < y
    ensures SortsBefore(fs, ">" + name, a, b) <==> x > y
    ensures name[0] !in {'<', '>', '=', '!'} ==> (SortsBefore(fs, name, a, b) <==> x < y)
  {
    ParsedKey('<', name);
    ParsedKey('>', name);
    OneKey(name);
  }

  /** By length: "=" before a name puts the value with more bytes first, and "!" the one with fewer. */
  lemma LengthsSort(fs: Floats, name: string, a: Entry, b: Entry)
    requires name != ""
    ensures var x := if name in a.text then a.text[name] else "";
            var y := if name in b.text then b.text[name] else "";
            && (SortsBefore(fs, "=" + name, a, b) <==> |Utf8.Encoded(x)| > |Utf8.Encoded(y)|)
            && (SortsBefore(fs, "!" + name, a, b) <==> |Utf8.Encoded(x)| < |Utf8.Encoded(y)|)
  {
    ParsedKey('=', name);
    ParsedKey('!', name);
    Utf8.SizeIsLength(Value(a.text, name));
    Utf8.SizeIsLength(Value(b.text, name));
  }

  /** An operator without a name is no sort key, and makes the list of keys none. */
  lemma OperatorAlone(op: char, more: seq<string>)
    requires op in {'<', '>', '=', '!'} && forall i | 0 <= i < |more| :: more[i] != ""
    ensures ParseKeys([[op]] + more) == None
  {
    assert ([[op]] + more)[0] == [op];
  }

  /** Of two keys the first decides, unless it puts neither before the other. */
  lemma FirstKeyDecides(fs: Floats, k: Key, more: seq<Key>, a: Entry, b: Entry)
    requires more != []
    ensures Less(fs, [k] + more, a, b)
            <==> Less(fs, [k], a, b) || (!Less(fs, [k], b, a) && Less(fs, more, a, b))
  {
    assert ([k] + more)[1..] == more;
  }
}
