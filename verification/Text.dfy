// The string functions that several components use: splitting at a character, joining, and the
// lexical path functions of Go's path/filepath.
module Text {
  import opened Wrappers

  /** `strings.Split(s, sep)` for a one-character separator. */
  function Split(s: string, sep: char): (parts: seq<string>)
    ensures |parts| > 0
  {
    if s == "" then [""]
    else if s[0] == sep then [""] + Split(s[1..], sep)
    else
      var rest := Split(s[1..], sep);
      [[s[0]] + rest[0]] + rest[1..]
  }

  /** `strings.Join(parts, sep)`. */
  function Join(parts: seq<string>, sep: string): string {
    if parts == [] then ""
    else if |parts| == 1 then parts[0]
    else parts[0] + sep + Join(parts[1..], sep)
  }

  lemma {:induction false} SplitParts(s: string, sep: char)
    ensures forall i | 0 <= i < |Split(s, sep)| :: sep !in Split(s, sep)[i]
  {
    if s != "" {
      SplitParts(s[1..], sep);
    }
  }

  lemma {:induction false} SplitNothing(s: string, sep: char)
    requires sep !in s
    ensures Split(s, sep) == [s]
  {
    if s != "" {
      SplitNothing(s[1..], sep);
      assert [s[0]] + s[1..] == s;
    }
  }

  lemma {:induction false} JoinSplit(s: string, sep: char)
    ensures Join(Split(s, sep), [sep]) == s
  {
    if s != "" {
      var rest := Split(s[1..], sep);
      JoinSplit(s[1..], sep);
      if s[0] == sep {
        assert ([""] + rest)[1..] == rest;
      } else {
        var parts := [[s[0]] + rest[0]] + rest[1..];
        assert parts[1..] == rest[1..];
        if |rest| > 1 {
          assert rest[0] + [sep] + Join(rest[1..], [sep]) == s[1..];
        }
      }
    }
  }

  /** Splitting a concatenation at a separator. */
  lemma {:induction false} SplitAt(a: string, sep: char, b: string)
    ensures Split(a + [sep] + b, sep) == Split(a, sep) + Split(b, sep)
  {
    var s := a + [sep] + b;
    if a == "" {
      assert s[0] == sep && s[1..] == b;
      assert Split(s, sep) == [""] + Split(b, sep);
    } else {
      var rest := Split(a[1..], sep);
      assert s[0] == a[0] && s[1..] == a[1..] + [sep] + b;
      SplitAt(a[1..], sep, b);
      assert Split(s[1..], sep) == rest + Split(b, sep);
      if a[0] == sep {
        assert [""] + (rest + Split(b, sep)) == [""] + rest + Split(b, sep);
      } else {
        HeadOfSum(rest, Split(b, sep), a[0]);
      }
    }
  }

  lemma HeadOfSum(p: seq<string>, q: seq<string>, c: char)
    requires p != []
    ensures [[c] + (p + q)[0]] + (p + q)[1..] == [[c] + p[0]] + p[1..] + q
  {
    assert (p + q)[1..] == p[1..] + q;
  }

  lemma {:induction false} SplitJoin(parts: seq<string>, sep: char)
    requires parts != [] && forall i | 0 <= i < |parts| :: sep !in parts[i]
    ensures Split(Join(parts, [sep]), sep) == parts
  {
    SplitNothing(parts[0], sep);
    if |parts| > 1 {
      SplitAt(parts[0], sep, Join(parts[1..], [sep]));
      SplitJoin(parts[1..], sep);
      assert [parts[0]] + parts[1..] == parts;
    } else {
      assert parts == [parts[0]];
    }
  }

  lemma {:induction false} JoinHasSeparator(parts: seq<string>, sep: char)
    requires forall i | 0 <= i < |parts| :: sep !in parts[i]
    ensures sep in Join(parts, [sep]) <==> |parts| > 1
  {
    if |parts| > 1 {
      var j := parts[0] + [sep] + Join(parts[1..], [sep]);
      assert j[|parts[0]|] == sep;
    }
  }

  /** The bytes a character takes in UTF-8. */
  function Width(c: char): nat {
    if c as int < 0x80 then 1 else if c as int < 0x800 then 2 else if c as int < 0x10000 then 3 else 4
  }

  function Size(s: string): nat {
    if s == "" then 0 else Width(s[0]) + Size(s[1..])
  }

  /** `%v` of a number. */
  function Decimal(n: nat): string {
    if n < 10 then [('0' as int + n) as char] else Decimal(n / 10) + Decimal(n % 10)
  }

  // ----- path/filepath on Unix -----

  predicate Rooted(p: string) {
    p != "" && p[0] == '/'
  }

  /** A name that stands for itself in a path. */
  predicate Ordinary(c: string) {
    c != "" && c != "." && c != ".." && '/' !in c
  }

  /** The elements of a path after the rules of `Clean`: empty elements and "." disappear, ".." takes
      the element before it away, and disappears at the root. */
  function Reduce(rooted: bool, done: seq<string>, todo: seq<string>): seq<string>
    decreases |todo|
  {
    if todo == [] then done
    else
      var c := todo[0];
      if c == "" || c == "." then Reduce(rooted, done, todo[1..])
      else if c == ".." then
        if done != [] && done[|done| - 1] != ".." then Reduce(rooted, done[..|done| - 1], todo[1..])
        else if rooted then Reduce(rooted, done, todo[1..])
        else Reduce(rooted, done + [c], todo[1..])
      else Reduce(rooted, done + [c], todo[1..])
  }

  function Elements(p: string): seq<string> {
    Reduce(Rooted(p), [], Split(p, '/'))
  }

  function Render(rooted: bool, cs: seq<string>): string {
    if rooted then "/" + Join(cs, "/")
    else if cs == [] then "."
    else Join(cs, "/")
  }

  /** `filepath.Clean`. */
  function Clean(p: string): string {
    Render(Rooted(p), Elements(p))
  }

  /** `filepath.Join` of two elements. */
  function PathJoin(a: string, b: string): string {
    if a != "" then Clean(a + "/" + b)
    else if b != "" then Clean(b)
    else ""
  }

  function CommonPrefix(a: seq<string>, b: seq<string>): (k: nat)
    ensures k <= |a| && k <= |b|
    ensures a[..k] == b[..k]
    ensures k < |a| && k < |b| ==> a[k] != b[k]
  {
    if a == [] || b == [] || a[0] != b[0] then 0
    else
      var k := CommonPrefix(a[1..], b[1..]);
      assert a[..1 + k] == [a[0]] + a[1..][..k] && b[..1 + k] == [b[0]] + b[1..][..k];
      1 + k
  }

  /** Up from one path's elements to what they share with another's, and down to those. */
  function Way(b: seq<string>, t: seq<string>): seq<string> {
    seq(|b| - CommonPrefix(b, t), _ => "..") + t[CommonPrefix(b, t)..]
  }

  /** `filepath.Rel`: up from the first differing element of the base, then down to the target. */
  function Rel(base: string, targ: string): Option<string> {
    var b, t := Elements(base), Elements(targ);
    var k := CommonPrefix(b, t);
    if Rooted(base) != Rooted(targ) then None
    else if k < |b| && b[k] == ".." then None
    else Some(Render(false, Way(b, t)))
  }

  /** The directory part of `filepath.Split` is empty exactly when there is no slash. */
  predicate HasDir(p: string) {
    '/' in p
  }

  lemma {:induction false} ReduceOrdinary(rooted: bool, done: seq<string>, todo: seq<string>)
    requires forall i | 0 <= i < |todo| :: Ordinary(todo[i])
    ensures Reduce(rooted, done, todo) == done + todo
    decreases |todo|
  {
    if todo != [] {
      ReduceOrdinary(rooted, done + [todo[0]], todo[1..]);
      assert done + [todo[0]] + todo[1..] == done + todo;
    }
  }

  lemma {:induction false} ReduceAppend(rooted: bool, done: seq<string>, a: seq<string>, b: seq<string>)
    ensures Reduce(rooted, done, a + b) == Reduce(rooted, Reduce(rooted, done, a), b)
    decreases |a|
  {
    if a == [] {
      assert a + b == b;
    } else {
      assert (a + b)[1..] == a[1..] + b && (a + b)[0] == a[0];
      var c := a[0];
      if c == "" || c == "." {
        ReduceAppend(rooted, done, a[1..], b);
      } else if c == ".." && done != [] && done[|done| - 1] != ".." {
        ReduceAppend(rooted, done[..|done| - 1], a[1..], b);
      } else if c == ".." && rooted {
        ReduceAppend(rooted, done, a[1..], b);
      } else {
        ReduceAppend(rooted, done + [c], a[1..], b);
      }
    }
  }
}
