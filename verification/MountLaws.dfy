// What one line of an fstab asks the kernel for (mount/mount_linux.go, mount/mount.go), told from its
// words, and how far the scanner reads.
module MountLaws {
  import opened Wrappers
  import opened Text
  import opened Namespace
  import opened NamespaceLaws
  import Utf8

  // ----- words -----

  /** The code points that `unicode.IsSpace` accepts. */
  const WHITE: set<int> := {0x9, 0xa, 0xb, 0xc, 0xd, 0x20, 0x85, 0xa0, 0x1680, 0x2000, 0x2001, 0x2002, 0x2003,
                            0x2004, 0x2005, 0x2006, 0x2007, 0x2008, 0x2009, 0x200a, 0x2028, 0x2029, 0x202f,
                            0x205f, 0x3000}

  lemma SpaceIsWhite(c: char)
    ensures IsSpace(c) <==> c as int in WHITE
  {
  }

  predicate IsGap(s: string) {
    forall i | 0 <= i < |s| :: s[i] as int in WHITE
  }

  predicate IsSolid(s: string) {
    s != "" && forall i | 0 <= i < |s| :: s[i] as int !in WHITE
  }

  /** Words with gaps before, between and after them. */
  function Spread(gaps: seq<string>, words: seq<string>): string
    requires |gaps| == |words| + 1
  {
    if words == [] then gaps[0] else gaps[0] + words[0] + Spread(gaps[1..], words[1..])
  }

  /** All are gaps, and those between two words are not empty. */
  predicate AreGaps(gaps: seq<string>) {
    forall i | 0 <= i < |gaps| :: IsGap(gaps[i]) && (0 < i < |gaps| - 1 ==> gaps[i] != "")
  }

  predicate AreWords(words: seq<string>) {
    forall i | 0 <= i < |words| :: IsSolid(words[i])
  }

  lemma {:induction false} FieldsSkip(gap: string, rest: string)
    requires IsGap(gap)
    ensures Fields(gap + rest) == Fields(rest)
    decreases |gap|
  {
    if gap == "" {
      assert gap + rest == rest;
    } else {
      SpaceIsWhite(gap[0]);
      FieldsSkip(gap[1..], rest);
      assert (gap + rest)[0] == gap[0] && (gap + rest)[1..] == gap[1..] + rest;
    }
  }

  lemma {:induction false} WordEnds(w: string, rest: string)
    requires (forall i | 0 <= i < |w| :: w[i] as int !in WHITE) && (rest == "" || rest[0] as int in WHITE)
    ensures Word(w + rest) == |w|
    decreases |w|
  {
    if w == "" {
      assert w + rest == rest;
      if rest != "" {
        SpaceIsWhite(rest[0]);
      }
    } else {
      SpaceIsWhite(w[0]);
      WordEnds(w[1..], rest);
      assert (w + rest)[0] == w[0] && (w + rest)[1..] == w[1..] + rest;
    }
  }

  lemma FieldsTake(w: string, rest: string)
    requires IsSolid(w) && (rest == "" || rest[0] as int in WHITE)
    ensures Fields(w + rest) == [w] + Fields(rest)
  {
    WordEnds(w, rest);
    SpaceIsWhite(w[0]);
    assert (w + rest)[0] == w[0];
    assert (w + rest)[..|w|] == w && (w + rest)[|w|..] == rest;
  }

  lemma SpreadStarts(gaps: seq<string>, words: seq<string>)
    requires |gaps| == |words| + 1 && AreGaps(gaps) && AreWords(words) && (words != [] ==> gaps[0] != "")
    ensures var s := Spread(gaps, words);
            s == "" || s[0] as int in WHITE
  {
    assert IsGap(gaps[0]);
  }

  lemma TailGaps(gaps: seq<string>, words: seq<string>)
    requires |gaps| == |words| + 1 && words != [] && AreGaps(gaps) && AreWords(words)
    ensures AreGaps(gaps[1..]) && AreWords(words[1..]) && (words[1..] != [] ==> gaps[1..][0] != "")
  {
    forall i | 0 <= i < |gaps[1..]|
      ensures IsGap(gaps[1..][i]) && (0 < i < |gaps[1..]| - 1 ==> gaps[1..][i] != "")
    {
      assert IsGap(gaps[i + 1]) && (0 < i + 1 < |gaps| - 1 ==> gaps[i + 1] != "");
    }
    forall i | 0 <= i < |words[1..]| ensures IsSolid(words[1..][i]) {
      assert IsSolid(words[i + 1]);
    }
    assert |words| > 1 ==> gaps[1] != "";
  }

  /** The fields of a line are its words, whatever whitespace is around them. */
  lemma {:induction false} FieldsAreWords(gaps: seq<string>, words: seq<string>)
    requires |gaps| == |words| + 1 && AreGaps(gaps) && AreWords(words)
    ensures Fields(Spread(gaps, words)) == words
    decreases |words|
  {
    assert IsGap(gaps[0]);
    if words == [] {
      FieldsSkip(gaps[0], "");
      assert gaps[0] + "" == gaps[0];
    } else {
      var rest := Spread(gaps[1..], words[1..]);
      TailGaps(gaps, words);
      SpreadStarts(gaps[1..], words[1..]);
      FieldsAreWords(gaps[1..], words[1..]);
      assert IsSolid(words[0]);
      FieldsTake(words[0], rest);
      FieldsSkip(gaps[0], words[0] + rest);
      assert gaps[0] + words[0] + rest == gaps[0] + (words[0] + rest);
      assert [words[0]] + words[1..] == words;
    }
  }

  lemma GapEnd(s: string) returns (k: nat)
    ensures k <= |s| && IsGap(s[..k]) && (k < |s| ==> s[k] as int !in WHITE)
  {
    k := 0;
    while k < |s| && s[k] as int in WHITE
      invariant k <= |s| && IsGap(s[..k])
    {
      k := k + 1;
    }
  }

  lemma WordEnd(s: string) returns (k: nat)
    requires s != "" && s[0] as int !in WHITE
    ensures 0 < k <= |s| && IsSolid(s[..k]) && (k < |s| ==> s[k] as int in WHITE)
  {
    k := 1;
    while k < |s| && s[k] as int !in WHITE
      invariant 0 < k <= |s| && IsSolid(s[..k])
    {
      k := k + 1;
    }
  }

  lemma ConsGaps(gap: string, w: string, gaps: seq<string>, words: seq<string>)
    requires IsGap(gap) && IsSolid(w) && |gaps| == |words| + 1 && AreGaps(gaps) && AreWords(words)
    requires words != [] ==> gaps[0] != ""
    ensures AreGaps([gap] + gaps) && AreWords([w] + words)
    ensures Spread([gap] + gaps, [w] + words) == gap + w + Spread(gaps, words)
  {
    var gs, ws := [gap] + gaps, [w] + words;
    assert gs[1..] == gaps && ws[1..] == words;
    forall i | 0 <= i < |gs| ensures IsGap(gs[i]) && (0 < i < |gs| - 1 ==> gs[i] != "") {
      if i > 0 {
        assert IsGap(gaps[i - 1]) && (0 < i - 1 < |gaps| - 1 ==> gaps[i - 1] != "");
      }
    }
    forall i | 0 <= i < |ws| ensures IsSolid(ws[i]) {
      assert i > 0 ==> IsSolid(words[i - 1]);
    }
  }

  /** Every line is made of words and gaps in this way. */
  lemma EveryLine(line: string) returns (gaps: seq<string>, words: seq<string>)
    ensures |gaps| == |words| + 1 && AreGaps(gaps) && AreWords(words) && Spread(gaps, words) == line
    ensures line != "" && line[0] as int in WHITE ==> gaps[0] != ""
    decreases |line|
  {
    var k := GapEnd(line);
    if k == |line| {
      gaps, words := [line], [];
      assert line[..k] == line;
    } else {
      var rest := line[k..];
      var n := WordEnd(rest);
      gaps, words := EveryLine(rest[n..]);
      if words != [] {
        assert rest[n..] != "";
      }
      ConsGaps(line[..k], rest[..n], gaps, words);
      gaps, words := [line[..k]] + gaps, [rest[..n]] + words;
      assert line == line[..k] + rest[..n] + rest[n..];
    }
  }

  // ----- options -----

  /** The options that are handed to the file system as text. */
  function Kept(h: Host, opts: seq<string>): seq<string> {
    if opts == [] then []
    else
      var o := opts[0];
      (if o == "defaults" || o in h.convert || o in h.ignore then [] else [o]) + Kept(h, opts[1..])
  }

  /** The bits of the flags of some option. */
  ghost predicate HasFlag(h: Host, opts: seq<string>, bit: nat) {
    exists i | 0 <= i < |opts| :: opts[i] != "defaults" && opts[i] in h.convert && bit in h.convert[opts[i]]
  }

  lemma {:induction false} KeptSnoc(h: Host, opts: seq<string>, o: string)
    ensures Kept(h, opts + [o])
         == Kept(h, opts) + if o == "defaults" || o in h.convert || o in h.ignore then [] else [o]
  {
    if opts == [] {
      assert opts + [o] == [o] && [o][1..] == [];
    } else {
      assert (opts + [o])[0] == opts[0] && (opts + [o])[1..] == opts[1..] + [o];
      KeptSnoc(h, opts[1..], o);
      var first := if opts[0] == "defaults" || opts[0] in h.convert || opts[0] in h.ignore then [] else [opts[0]];
      var last := if o == "defaults" || o in h.convert || o in h.ignore then [] else [o];
      assert first + (Kept(h, opts[1..]) + last) == first + Kept(h, opts[1..]) + last;
    }
  }

  lemma {:induction false} OptionsAre(h: Host, opts: seq<string>)
    ensures Options(h, opts).1 == Kept(h, opts)
    ensures forall bit :: bit in Options(h, opts).0 <==> HasFlag(h, opts, bit)
  {
    if opts != [] {
      var n := |opts| - 1;
      OptionsAre(h, opts[..n]);
      KeptSnoc(h, opts[..n], opts[n]);
      assert opts[..n] + [opts[n]] == opts;
      forall bit: nat ensures bit in Options(h, opts).0 <==> HasFlag(h, opts, bit) {
        FlagSnoc(h, opts, bit);
      }
    }
  }

  lemma FlagSnoc(h: Host, opts: seq<string>, bit: nat)
    requires opts != []
    ensures var o := opts[|opts| - 1];
            HasFlag(h, opts, bit)
            <==> HasFlag(h, opts[..|opts| - 1], bit) || (o != "defaults" && o in h.convert && bit in h.convert[o])
  {
    var p := opts[..|opts| - 1];
    if HasFlag(h, opts, bit) {
      var i :| 0 <= i < |opts| && opts[i] != "defaults" && opts[i] in h.convert && bit in h.convert[opts[i]];
      assert i < |p| ==> p[i] == opts[i];
    }
    if HasFlag(h, p, bit) {
      var i :| 0 <= i < |p| && p[i] != "defaults" && p[i] in h.convert && bit in h.convert[p[i]];
      assert opts[i] == p[i];
    }
  }

  // ----- one line -----

  /** The call of a line with these words: what to mount and where, with symbolic links followed, the type,
      the bits of the known options, and the other options but "defaults" and those to ignore. */
  ghost predicate Asks(h: Host, c: Call, words: seq<string>)
    requires |words| >= 6
  {
    var opts := Split(words[3], ',');
    && c.source == (if words[0] in h.links then h.links[words[0]] else words[0])
    && c.target == (if words[1] in h.links then h.links[words[1]] else words[1])
    && c.fstype == words[2]
    && (forall bit :: bit in c.flags <==> HasFlag(h, opts, bit))
    && c.data == Join(Kept(h, opts), ",")
  }

  lemma TrimSolid(w: string)
    requires IsSolid(w)
    ensures TrimSpace(w) == w
  {
    SpaceIsWhite(w[0]);
    SpaceIsWhite(w[|w| - 1]);
  }

  /** `t` is `s` without whitespace at its ends. */
  ghost predicate IsTrimmed(s: string, t: string, front: string, back: string) {
    && s == front + t + back && IsGap(front) && IsGap(back)
    && (t != "" ==> t[0] as int !in WHITE && t[|t| - 1] as int !in WHITE)
  }

  lemma TrimmedFront(s: string, t: string, front: string, back: string)
    requires s != "" && s[0] as int in WHITE && IsTrimmed(s[1..], t, front, back)
    ensures IsTrimmed(s, t, [s[0]] + front, back)
  {
    assert s == [s[0]] + s[1..];
    assert [s[0]] + (front + t + back) == [s[0]] + front + t + back;
  }

  lemma TrimmedBack(s: string, t: string, front: string, back: string)
    requires s != "" && s[|s| - 1] as int in WHITE && IsTrimmed(s[..|s| - 1], t, front, back)
    ensures IsTrimmed(s, t, front, back + [s[|s| - 1]])
  {
    assert s == s[..|s| - 1] + [s[|s| - 1]];
    assert front + t + back + [s[|s| - 1]] == front + t + (back + [s[|s| - 1]]);
  }

  lemma NotTrimmed(s: string)
    requires s != "" ==> s[0] as int !in WHITE && s[|s| - 1] as int !in WHITE
    ensures IsTrimmed(s, s, "", "")
  {
    assert "" + s + "" == s;
  }

  /** An option list is read without the whitespace at its ends. */
  lemma {:induction false} TrimSpaceIs(s: string) returns (front: string, back: string)
    ensures IsTrimmed(s, TrimSpace(s), front, back)
    decreases |s|
  {
    if s == "" {
      NotTrimmed(s);
      front, back := "", "";
    } else {
      SpaceIsWhite(s[0]);
      SpaceIsWhite(s[|s| - 1]);
      if IsSpace(s[0]) {
        front, back := TrimSpaceIs(s[1..]);
        TrimmedFront(s, TrimSpace(s[1..]), front, back);
        front := [s[0]] + front;
      } else if IsSpace(s[|s| - 1]) {
        front, back := TrimSpaceIs(s[..|s| - 1]);
        TrimmedBack(s, TrimSpace(s[..|s| - 1]), front, back);
        back := back + [s[|s| - 1]];
      } else {
        NotTrimmed(s);
        front, back := "", "";
      }
    }
  }

  lemma CallAsks(h: Host, words: seq<string>)
    requires |words| >= 6 && AreWords(words)
    ensures Asks(h, CallOf(h, words), words)
  {
    assert IsSolid(words[3]);
    TrimSolid(words[3]);
    OptionsAre(h, Split(words[3], ','));
  }

  lemma LastGap(gaps: seq<string>, words: seq<string>, line: string)
    requires |gaps| == |words| + 1 && AreGaps(gaps) && AreWords(words) && Spread(gaps, words) == line
    ensures Fields(DropCR(line)) == words
  {
    if DropCR(line) != line {
      var gs, ws := EveryLine(DropCR(line));
      FieldsAreWords(gs, ws);
      var last := gs[|ws|] + "\r";
      SpreadMore(gs, ws, "\r");
      MoreGaps(gs, ws, last);
      assert line == DropCR(line) + "\r";
      FieldsAreWords(gs[|ws| := last], ws);
      FieldsAreWords(gaps, words);
    } else {
      FieldsAreWords(gaps, words);
    }
  }

  lemma {:induction false} SpreadMore(gaps: seq<string>, words: seq<string>, more: string)
    requires |gaps| == |words| + 1
    ensures Spread(gaps[|words| := gaps[|words|] + more], words) == Spread(gaps, words) + more
    decreases |words|
  {
    if words != [] {
      SpreadMore(gaps[1..], words[1..], more);
      var gs := gaps[|words| := gaps[|words|] + more];
      assert gs[1..] == gaps[1..][|words| - 1 := gaps[1..][|words| - 1] + more];
      assert gaps[0] + words[0] + (Spread(gaps[1..], words[1..]) + more)
          == gaps[0] + words[0] + Spread(gaps[1..], words[1..]) + more;
    }
  }

  lemma MoreGaps(gaps: seq<string>, words: seq<string>, last: string)
    requires |gaps| == |words| + 1 && AreGaps(gaps) && last == gaps[|words|] + "\r"
    ensures AreGaps(gaps[|words| := last])
  {
    var gs := gaps[|words| := last];
    assert IsGap(gaps[|words|]);
    forall i | 0 <= i < |gs| ensures IsGap(gs[i]) && (0 < i < |gs| - 1 ==> gs[i] != "") {
      assert IsGap(gaps[i]) && (0 < i < |gaps| - 1 ==> gaps[i] != "");
    }
  }

  /** A line that begins with '#' or has fewer than six words asks for nothing; any other asks for exactly
      one mount. Every line is of this form. */
  lemma LineAsks(h: Host, gaps: seq<string>, words: seq<string>, line: string)
    requires |gaps| == |words| + 1 && AreGaps(gaps) && AreWords(words) && Spread(gaps, words) == line
    ensures if (line != "" && line[0] == '#') || |words| < 6 then LineCalls(h, line) == []
            else |LineCalls(h, line)| == 1 && Asks(h, LineCalls(h, line)[0], words)
  {
    LastGap(gaps, words, line);
    if |words| >= 6 {
      CallAsks(h, words);
    }
  }

  // ----- the scanner and the errors -----

  lemma ShortOne(lines: seq<string>, line: string)
    requires lines == [line]
    ensures Short(lines) <==> !TooLong(line)
  {
    assert lines[0] == line;
    if !TooLong(line) {
      forall i | 0 <= i < |lines| ensures !TooLong(lines[i]) {
        assert lines[i] == line;
      }
    }
  }

  lemma SplitsNot(line: string)
    requires '\n' !in line
    ensures Split(line, '\n') == [line] && (ShortText(line) <==> !TooLong(line))
  {
    SplitNothing(line, '\n');
    ShortOne(Split(line, '\n'), line);
  }

  lemma OneLine(h: Host, line: string)
    ensures Calls(h, Seen([line])) == if TooLong(line) then [] else LineCalls(h, line)
  {
    assert [line][1..] == [] && LineCalls(h, line) + [] == LineCalls(h, line);
    if !TooLong(line) {
      assert Seen([line]) == [line];
    }
  }

  lemma ReadsOne(h: Host, line: string)
    requires '\n' !in line
    ensures Reads(h, line) == if TooLong(line) then [] else LineCalls(h, line)
  {
    SplitsNot(line);
    OneLine(h, line);
  }

  /** A line whose bytes do not fit the scanner's buffer of 65536 ends the reading; any other is followed by
      the rest of the text. */
  lemma ReadsLine(h: Host, line: string, rest: string)
    requires '\n' !in line
    ensures Mounts(h, line + "\n" + rest)
         == if |Utf8.Encoded(line)| >= 65536 then [] else LineCalls(h, line) + Mounts(h, rest)
  {
    Utf8.SizeIsLength(line);
    MountsAreReads(h, line + "\n" + rest);
    MountsAreReads(h, rest);
    ReadsAt(h, line, rest);
    SplitsNot(line);
    ReadsOne(h, line);
  }

  /** How many of the first `k` calls fail. */
  function Before(fails: set<nat>, k: nat): nat {
    if k == 0 then 0 else Before(fails, k - 1) + if k - 1 in fails then 1 else 0
  }

  /** The calls reported as failed are exactly those that the mounter fails, in their order. */
  lemma {:induction false} FailingAre(calls: seq<Call>, fails: set<nat>)
    ensures |Failing(calls, fails)| == Before(fails, |calls|)
    ensures forall k | 0 <= k < |calls| && k in fails ::
              Before(fails, k) < |Failing(calls, fails)| && Failing(calls, fails)[Before(fails, k)] == calls[k]
  {
    if calls != [] {
      var n := |calls| - 1;
      FailingAre(calls[..n], fails);
      forall k | 0 <= k < |calls| && k in fails
        ensures Before(fails, k) < |Failing(calls, fails)| && Failing(calls, fails)[Before(fails, k)] == calls[k]
      {
        if k < n {
          assert Before(fails, k) < |Failing(calls[..n], fails)|;
        }
      }
    }
  }
}
