// What the namespace pipeline promises: joined tables mean what the tables mean one after the other,
// and a namespace string turns into exactly one bind mount per bind, in order.
module NamespaceLaws {
  import opened Text
  import opened Namespace

  // ----- joined tables -----

  /** The entries of a table, whatever the length of its lines. */
  function Entries(h: Host, text: string): seq<Call> {
    Calls(h, Split(text, '\n'))
  }

  function AllEntries(h: Host, tables: seq<string>): seq<Call> {
    if tables == [] then [] else Entries(h, tables[0]) + AllEntries(h, tables[1..])
  }

  lemma {:induction false} CallsAppend(h: Host, a: seq<string>, b: seq<string>)
    ensures Calls(h, a + b) == Calls(h, a) + Calls(h, b)
  {
    if a == [] {
      assert a + b == b;
    } else {
      assert (a + b)[0] == a[0] && (a + b)[1..] == a[1..] + b;
      CallsAppend(h, a[1..], b);
      assert LineCalls(h, a[0]) + (Calls(h, a[1..]) + Calls(h, b))
          == LineCalls(h, a[0]) + Calls(h, a[1..]) + Calls(h, b);
    }
  }

  lemma EntriesAt(h: Host, a: string, b: string)
    ensures Entries(h, a + "\n" + b) == Entries(h, a) + Entries(h, b)
  {
    SplitAt(a, '\n', b);
    CallsAppend(h, Split(a, '\n'), Split(b, '\n'));
  }

  lemma NoEntries(h: Host)
    ensures Entries(h, "") == []
  {
    assert DropCR("") == "" && Fields("") == [];
    assert Split("", '\n') == [""] && [""][1..] == [];
    assert Calls(h, [""]) == LineCalls(h, "") + Calls(h, [""][1..]);
  }

  lemma {:induction false} EntriesTrimLeft(h: Host, s: string)
    ensures Entries(h, TrimLeft(s)) == Entries(h, s)
  {
    if s != "" && s[0] == '\n' {
      NoEntries(h);
      EntriesAt(h, "", s[1..]);
      assert "" + "\n" + s[1..] == s;
      EntriesTrimLeft(h, s[1..]);
    }
  }

  lemma {:induction false} EntriesTrimRight(h: Host, s: string)
    ensures Entries(h, TrimRight(s)) == Entries(h, s)
  {
    if s != "" && s[|s| - 1] == '\n' {
      NoEntries(h);
      EntriesAt(h, s[..|s| - 1], "");
      assert s[..|s| - 1] + "\n" + "" == s;
      EntriesTrimRight(h, s[..|s| - 1]);
    }
  }

  lemma {:induction false} EntriesJoin(h: Host, parts: seq<string>)
    ensures Entries(h, Join(parts, "\n")) == AllEntries(h, parts)
  {
    if parts == [] {
      NoEntries(h);
    } else if |parts| > 1 {
      EntriesAt(h, parts[0], Join(parts[1..], "\n"));
      EntriesJoin(h, parts[1..]);
    } else {
      assert parts[1..] == [];
    }
  }

  lemma {:induction false} EntriesTrimmed(h: Host, tables: seq<string>)
    ensures AllEntries(h, Trimmed(tables)) == AllEntries(h, tables)
  {
    if tables != [] {
      EntriesTrimRight(h, tables[0]);
      EntriesTrimLeft(h, TrimRight(tables[0]));
      assert Trimmed(tables)[1..] == Trimmed(tables[1..]);
      EntriesTrimmed(h, tables[1..]);
    }
  }

  /** The entries of joined tables are those of each table, in order. */
  lemma JoinKeepsEntries(h: Host, tables: seq<string>)
    ensures Entries(h, JoinTables(tables)) == AllEntries(h, tables)
  {
    NoEntries(h);
    if tables != [] {
      EntriesAt(h, Join(Trimmed(tables), "\n"), "");
      assert Join(Trimmed(tables), "\n") + "\n" + "" == JoinTables(tables);
      EntriesJoin(h, Trimmed(tables));
      EntriesTrimmed(h, tables);
    }
  }

  // ----- trimming -----

  predicate Newlines(s: string) {
    forall i | 0 <= i < |s| :: s[i] == '\n'
  }

  lemma {:induction false} TrimLeftIs(s: string) returns (front: string)
    ensures s == front + TrimLeft(s) && Newlines(front) && (TrimLeft(s) != "" ==> TrimLeft(s)[0] != '\n')
  {
    if s != "" && s[0] == '\n' {
      var rest := TrimLeftIs(s[1..]);
      front := "\n" + rest;
      assert s == [s[0]] + s[1..];
    } else {
      front := "";
    }
  }

  lemma {:induction false} TrimRightIs(s: string) returns (back: string)
    ensures s == TrimRight(s) + back && Newlines(back)
    ensures TrimRight(s) != "" ==> TrimRight(s)[|TrimRight(s)| - 1] != '\n'
  {
    if s != "" && s[|s| - 1] == '\n' {
      var rest := TrimRightIs(s[..|s| - 1]);
      back := rest + "\n";
      assert s == s[..|s| - 1] + [s[|s| - 1]];
    } else {
      back := "";
    }
  }

  /** Trimming a table takes away the newlines at its ends, all of them and nothing else. */
  lemma TrimIs(s: string) returns (front: string, back: string)
    ensures s == front + Trim(s) + back && Newlines(front) && Newlines(back)
    ensures Trim(s) != "" ==> Trim(s)[0] != '\n' && Trim(s)[|Trim(s)| - 1] != '\n'
  {
    back := TrimRightIs(s);
    front := TrimLeftIs(TrimRight(s));
  }

  // ----- lines the scanner takes -----

  predicate Short(lines: seq<string>) {
    forall i | 0 <= i < |lines| :: !TooLong(lines[i])
  }

  predicate ShortText(text: string) {
    Short(Split(text, '\n'))
  }

  lemma ShortAppend(a: seq<string>, b: seq<string>)
    ensures Short(a + b) <==> Short(a) && Short(b)
  {
    if Short(a + b) {
      forall i | 0 <= i < |a| ensures !TooLong(a[i]) {
        assert (a + b)[i] == a[i];
      }
      forall i | 0 <= i < |b| ensures !TooLong(b[i]) {
        assert (a + b)[|a| + i] == b[i];
      }
    }
  }

  lemma ShortAt(a: string, b: string)
    ensures ShortText(a + "\n" + b) <==> ShortText(a) && ShortText(b)
  {
    SplitAt(a, '\n', b);
    ShortAppend(Split(a, '\n'), Split(b, '\n'));
  }

  lemma {:induction false} ShortTrimLeft(s: string)
    ensures ShortText(TrimLeft(s)) <==> ShortText(s)
  {
    if s != "" && s[0] == '\n' {
      ShortAt("", s[1..]);
      assert "" + "\n" + s[1..] == s;
      ShortTrimLeft(s[1..]);
    }
  }

  lemma {:induction false} ShortTrimRight(s: string)
    ensures ShortText(TrimRight(s)) <==> ShortText(s)
  {
    if s != "" && s[|s| - 1] == '\n' {
      ShortAt(s[..|s| - 1], "");
      assert s[..|s| - 1] + "\n" + "" == s;
      ShortTrimRight(s[..|s| - 1]);
    }
  }

  // ----- mounting joined tables -----

  /** The mounts of a text, line by line up to the first that is too long. */
  function Reads(h: Host, text: string): seq<Call> {
    Calls(h, Seen(Split(text, '\n')))
  }

  lemma {:induction false} SeenAppend(a: seq<string>, b: seq<string>)
    ensures Seen(a + b) == Seen(a) + (if Short(a) then Seen(b) else [])
  {
    if a == [] {
      assert a + b == b && Seen(a) + Seen(b) == Seen(b);
    } else {
      assert (a + b)[0] == a[0] && (a + b)[1..] == a[1..] + b;
      assert Short(a) <==> !TooLong(a[0]) && Short(a[1..]) by {
        assert forall i | 1 <= i < |a| :: a[i] == a[1..][i - 1];
      }
      if !TooLong(a[0]) {
        SeenAppend(a[1..], b);
      }
    }
  }

  lemma ReadsAt(h: Host, a: string, b: string)
    ensures Reads(h, a + "\n" + b) == Reads(h, a) + (if ShortText(a) then Reads(h, b) else [])
  {
    var p, q := Split(a, '\n'), Split(b, '\n');
    SplitAt(a, '\n', b);
    SeenAppend(p, q);
    if Short(p) {
      CallsAppend(h, Seen(p), Seen(q));
    } else {
      assert Seen(p) + [] == Seen(p);
    }
  }

  lemma ReadsNothing(h: Host)
    ensures Reads(h, "") == []
  {
    assert DropCR("") == "" && Fields("") == [];
    assert Split("", '\n') == [""] && [""][1..] == [];
    assert Seen([""]) == [] || Seen([""]) == [""];
    assert Calls(h, [""]) == LineCalls(h, "") + Calls(h, [""][1..]);
  }

  /** An empty last line asks for nothing. */
  lemma ReadsLast(h: Host, a: string)
    ensures Reads(h, a + "\n") == Reads(h, a)
  {
    ReadsNothing(h);
    ReadsAt(h, a, "");
    assert a + "\n" + "" == a + "\n";
    assert Reads(h, a) + [] == Reads(h, a);
  }

  lemma MountsAreReads(h: Host, text: string)
    ensures Mounts(h, text) == Reads(h, text)
  {
    var parts := Split(text, '\n');
    if parts[|parts| - 1] == "" {
      var front := parts[..|parts| - 1];
      assert parts == front + [""];
      SeenAppend(front, [""]);
      if Short(front) {
        assert [""][1..] == [];
        CallsAppend(h, Seen(front), Seen([""]));
        ReadsNothing(h);
        assert Split("", '\n') == [""];
        assert Calls(h, Seen(front)) + [] == Calls(h, Seen(front));
      } else {
        assert Seen(front) + [] == Seen(front);
      }
    }
  }

  lemma {:induction false} ReadsTrimLeft(h: Host, s: string)
    ensures Reads(h, TrimLeft(s)) == Reads(h, s)
  {
    if s != "" && s[0] == '\n' {
      ReadsNothing(h);
      ReadsAt(h, "", s[1..]);
      assert Split("", '\n') == [""] && ShortText("");
      assert "" + "\n" + s[1..] == s;
      ReadsTrimLeft(h, s[1..]);
    }
  }

  lemma {:induction false} ReadsTrimRight(h: Host, s: string)
    ensures Reads(h, TrimRight(s)) == Reads(h, s)
  {
    if s != "" && s[|s| - 1] == '\n' {
      ReadsLast(h, s[..|s| - 1]);
      assert s[..|s| - 1] + "\n" == s;
      ReadsTrimRight(h, s[..|s| - 1]);
    }
  }

  lemma TrimKeeps(h: Host, s: string)
    ensures Reads(h, Trim(s)) == Reads(h, s)
    ensures ShortText(Trim(s)) <==> ShortText(s)
  {
    ReadsTrimRight(h, s);
    ReadsTrimLeft(h, TrimRight(s));
    ShortTrimRight(s);
    ShortTrimLeft(TrimRight(s));
  }

  /** The mounts of each table in turn, up to the first that has a line too long for the scanner. */
  function MountsInTurn(h: Host, tables: seq<string>): seq<Call> {
    if tables == [] then []
    else Mounts(h, tables[0]) + (if ShortText(tables[0]) then MountsInTurn(h, tables[1..]) else [])
  }

  lemma ReadsTable(h: Host, table: string, rest: string)
    ensures Reads(h, Trim(table)) == Mounts(h, table)
    ensures Reads(h, Trim(table) + "\n" + rest)
         == Mounts(h, table) + (if ShortText(table) then Reads(h, rest) else [])
  {
    TrimKeeps(h, table);
    MountsAreReads(h, table);
    ReadsAt(h, Trim(table), rest);
  }

  lemma TrimmedAt(tables: seq<string>)
    requires tables != []
    ensures Trimmed(tables)[0] == Trim(tables[0]) && Trimmed(tables)[1..] == Trimmed(tables[1..])
  {
  }

  lemma OneTable(h: Host, table: string)
    ensures MountsInTurn(h, [table]) == Mounts(h, table)
  {
    assert [table][1..] == [] && Mounts(h, table) + [] == Mounts(h, table);
  }

  lemma {:induction false} ReadsJoin(h: Host, tables: seq<string>)
    ensures Reads(h, Join(Trimmed(tables), "\n")) == MountsInTurn(h, tables)
  {
    if tables == [] {
      ReadsNothing(h);
    } else {
      var rest := Join(Trimmed(tables[1..]), "\n");
      ReadsTable(h, tables[0], rest);
      TrimmedAt(tables);
      ReadsJoin(h, tables[1..]);
      if |tables| > 1 {
        assert Join(Trimmed(tables), "\n") == Trim(tables[0]) + "\n" + rest;
      } else {
        OneTable(h, tables[0]);
        assert tables == [tables[0]];
      }
    }
  }

  /** Mounting joined tables is mounting each in turn; a line that is too long for the scanner ends that. */
  lemma JoinMountsInTurn(h: Host, tables: seq<string>)
    ensures Mounts(h, JoinTables(tables)) == MountsInTurn(h, tables)
  {
    MountsAreReads(h, JoinTables(tables));
    ReadsJoin(h, tables);
    if tables == [] {
      ReadsNothing(h);
    } else {
      ReadsLast(h, Join(Trimmed(tables), "\n"));
    }
  }

  function AllMounts(h: Host, tables: seq<string>): seq<Call> {
    if tables == [] then [] else Mounts(h, tables[0]) + AllMounts(h, tables[1..])
  }

  lemma {:induction false} InTurnIsAll(h: Host, tables: seq<string>)
    requires forall i | 0 <= i < |tables| :: ShortText(tables[i])
    ensures MountsInTurn(h, tables) == AllMounts(h, tables)
  {
    if tables != [] {
      InTurnIsAll(h, tables[1..]);
    }
  }

  /** ... so without such a line it is mounting all of them. */
  lemma JoinKeepsMounts(h: Host, tables: seq<string>)
    requires forall i | 0 <= i < |tables| :: ShortText(tables[i])
    ensures Mounts(h, JoinTables(tables)) == AllMounts(h, tables)
  {
    JoinMountsInTurn(h, tables);
    InTurnIsAll(h, tables);
  }
}
