// The namespace pipeline: `ParseBinds` prints an fstab, `JoinFSTab` joins it with others
// (client/fns.go), and the server's `mount` reads the result line by line (mount/).
module Namespace {
  import opened Wrappers
  import opened Text

  // ----- ParseBinds -----

  datatype Bind = Bind(local: string, remote: string)

  datatype BindError = EmptyElement(at: nat) | EmptyLocal(at: nat) | EmptyRemote(at: nat)

  /** `strings.SplitN(s, sep, 2)`. */
  function SplitFirst(s: string, sep: char): (parts: seq<string>)
    ensures 1 <= |parts| <= 2
  {
    if s == "" then [""]
    else if s[0] == sep then ["", s[1..]]
    else
      var rest := SplitFirst(s[1..], sep);
      [[s[0]] + rest[0]] + rest[1..]
  }

  function BindOf(elem: string, at: nat): Result<Bind, BindError> {
    if elem == "" then Err(EmptyElement(at))
    else
      var c := SplitFirst(elem, '=');
      var b := if |c| == 1 then Bind(c[0], c[0]) else Bind(c[0], c[1]);
      if b.local == "" then Err(EmptyLocal(at))
      else if b.remote == "" then Err(EmptyRemote(at))
      else Ok(b)
  }

  /** The source of a bind mount: the remote name below the place where the client is mounted. */
  function Source(b: Bind): string {
    Clean("/tmp/cpu/" + b.remote)
  }

  function Line(b: Bind): string {
    Source(b) + " " + b.local + " none defaults,bind 0 0"
  }

  function Table(binds: seq<Bind>): string {
    if binds == [] then ""
    else Line(binds[0]) + "\n" + Table(binds[1..])
  }

  /** The binds before the first bad element, and what is wrong with that. */
  function BindsFrom(elems: seq<string>, at: nat): (r: (seq<Bind>, Option<BindError>)) {
    if elems == [] then ([], None)
    else
      match BindOf(elems[0], at)
      case Err(e) => ([], Some(e))
      case Ok(b) =>
        var (binds, err) := BindsFrom(elems[1..], at + 1);
        ([b] + binds, err)
  }

  function Binds(s: string): (seq<Bind>, Option<BindError>) {
    if s == "" then ([], None) else BindsFrom(Split(s, ':'), 0)
  }

  lemma {:induction false} TableSnoc(binds: seq<Bind>, b: Bind)
    ensures Table(binds + [b]) == Table(binds) + (Line(b) + "\n")
  {
    if binds == [] {
      assert [b][1..] == [];
      assert [] + [b] == [b];
    } else {
      assert (binds + [b])[1..] == binds[1..] + [b];
      TableSnoc(binds[1..], b);
    }
  }

  lemma BindsNext(elems: seq<string>, at: nat, done: seq<Bind>)
    requires at < |elems|
    ensures var (binds, err) := BindsFrom(elems[at..], at);
            match BindOf(elems[at], at)
            case Err(e) => binds == [] && err == Some(e)
            case Ok(b) =>
              var (rest, err') := BindsFrom(elems[at + 1..], at + 1);
              done + binds == done + [b] + rest && err == err'
  {
    assert elems[at..][1..] == elems[at + 1..];
    if BindOf(elems[at], at).Ok? {
      var b := BindOf(elems[at], at).value;
      var rest := BindsFrom(elems[at + 1..], at + 1).0;
      assert done + ([b] + rest) == done + [b] + rest;
    }
  }

  /** The body of the loop of `ParseBinds` up to the line it prints. */
  method ParseBind(bind: string, i: nat) returns (r: Result<Bind, BindError>)
    ensures r == BindOf(bind, i)
  {
    if bind == "" {
      return Err(EmptyElement(i));
    }
    var c := SplitFirst(bind, '=');
    var local, remote := c[0], c[|c| - 1];
    if local == "" {
      return Err(EmptyLocal(i));
    }
    if remote == "" {
      return Err(EmptyRemote(i));
    }
    r := Ok(Bind(local, remote));
  }

  /** `ParseBinds`: an empty element discards the table, the other errors keep what came before. */
  method ParseBinds(s: string) returns (fstab: string, err: Option<BindError>)
    ensures err == Binds(s).1
    ensures fstab == if err.Some? && err.value.EmptyElement? then "" else Table(Binds(s).0)
  {
    fstab, err := "", None;
    if s == "" {
      return;
    }
    var elems := Split(s, ':');
    ghost var done: seq<Bind> := [];
    ghost var all := Binds(s);
    assert elems[0..] == elems;
    assert done + all.0 == all.0;
    for i := 0 to |elems|
      invariant fstab == Table(done)
      invariant all.0 == done + BindsFrom(elems[i..], i).0
      invariant all.1 == BindsFrom(elems[i..], i).1
    {
      BindsNext(elems, i, done);
      assert done + [] == done;
      var r := ParseBind(elems[i], i);
      match r
      case Err(e) =>
        return if e.EmptyElement? then "" else fstab, Some(e);
      case Ok(b) =>
        TableSnoc(done, b);
        done := done + [b];
        fstab := fstab + (Line(b) + "\n");
    }
    assert done + [] == done;
  }

  // ----- JoinFSTab -----

  function TrimLeft(s: string): string {
    if s != "" && s[0] == '\n' then TrimLeft(s[1..]) else s
  }

  function TrimRight(s: string): string {
    if s != "" && s[|s| - 1] == '\n' then TrimRight(s[..|s| - 1]) else s
  }

  function Trim(s: string): string {
    TrimLeft(TrimRight(s))
  }

  function Trimmed(tables: seq<string>): seq<string> {
    seq(|tables|, i requires 0 <= i < |tables| => Trim(tables[i]))
  }

  function JoinTables(tables: seq<string>): string {
    if tables == [] then "" else Join(Trimmed(tables), "\n") + "\n"
  }

  /** `JoinFSTab`. It trims the tables in the slice it is given. */
  method JoinFSTab(tables: array<string>) returns (fstab: string)
    modifies tables
    ensures fstab == JoinTables(old(tables[..]))
    ensures tables[..] == Trimmed(old(tables[..]))
  {
    if tables.Length == 0 {
      assert tables[..] == [];
      return "";
    }
    for i := 0 to tables.Length
      invariant forall k | 0 <= k < i :: tables[k] == Trim(old(tables[k]))
      invariant forall k | i <= k < tables.Length :: tables[k] == old(tables[k])
    {
      if tables[i] == "" {
        continue;
      }
      tables[i] := TrimLeft(TrimRight(tables[i]));
    }
    assert tables[..] == Trimmed(old(tables[..]));
    fstab := Join(tables[..], "\n") + "\n";
  }

  // ----- mount -----

  /** `unicode.IsSpace`. */
  predicate IsSpace(c: char) {
    || '\t' <= c <= '\r' || c == ' ' || c == '\U{85}' || c == '\U{A0}' || c == '\U{1680}'
    || '\U{2000}' <= c <= '\U{200A}' || c == '\U{2028}' || c == '\U{2029}' || c == '\U{202F}'
    || c == '\U{205F}' || c == '\U{3000}'
  }

  predicate NoSpace(s: string) {
    forall i | 0 <= i < |s| :: !IsSpace(s[i])
  }

  function Word(s: string): (n: nat)
    ensures n <= |s| && forall i | 0 <= i < n :: !IsSpace(s[i])
    ensures n < |s| ==> IsSpace(s[n])
    ensures s != "" && !IsSpace(s[0]) ==> n > 0
  {
    if s == "" || IsSpace(s[0]) then 0
    else 1 + Word(s[1..])
  }

  /** `strings.Fields`. */
  function Fields(s: string): seq<string>
    decreases |s|
  {
    if s == "" then []
    else if IsSpace(s[0]) then Fields(s[1..])
    else [s[..Word(s)]] + Fields(s[Word(s)..])
  }

  /** A line longer than the buffer of `bufio.Scanner` ends the scan. */
  predicate TooLong(line: string) {
    Size(line) >= 65536
  }

  function DropCR(line: string): string {
    if line != "" && line[|line| - 1] == '\r' then line[..|line| - 1] else line
  }

  /** The lines the scanner sees: a text that ends in a newline has no line after it. */
  function Lines(text: string): seq<string> {
    var parts := Split(text, '\n');
    if parts[|parts| - 1] == "" then parts[..|parts| - 1] else parts
  }

  /** A flag word, as the set of its bits. */
  type Flags = set<nat>

  /** What the host knows: the flag of each option, the options to ignore, and where names lead when
      symbolic links are followed. */
  datatype Host = Host(convert: map<string, Flags>, ignore: set<string>, links: map<string, string>)

  function Follow(h: Host, name: string): string {
    if name in h.links then h.links[name] else name
  }

  /** What one option adds to the flags and to the options that stay text. */
  function AddOption(h: Host, sum: (Flags, seq<string>), f: string): (Flags, seq<string>) {
    if f == "defaults" then sum
    else if f in h.convert then (sum.0 + h.convert[f], sum.1)
    else if f !in h.ignore then (sum.0, sum.1 + [f])
    else sum
  }

  function Options(h: Host, opts: seq<string>): (Flags, seq<string>) {
    if opts == [] then ({}, [])
    else AddOption(h, Options(h, opts[..|opts| - 1]), opts[|opts| - 1])
  }

  function TrimSpace(s: string): string {
    if s != "" && IsSpace(s[0]) then TrimSpace(s[1..])
    else if s != "" && IsSpace(s[|s| - 1]) then TrimSpace(s[..|s| - 1])
    else s
  }

  /** `parse`. */
  method ParseOptions(h: Host, m: string) returns (flags: Flags, data: string)
    ensures flags == Options(h, Split(TrimSpace(m), ',')).0
    ensures data == Join(Options(h, Split(TrimSpace(m), ',')).1, ",")
  {
    var fs := Split(TrimSpace(m), ',');
    var opts: seq<string> := [];
    flags := {};
    for i := 0 to |fs|
      invariant (flags, opts) == Options(h, fs[..i])
    {
      assert fs[..i + 1][..i] == fs[..i];
      var f := fs[i];
      if f == "defaults" {
        continue;
      }
      if f in h.convert {
        flags := flags + h.convert[f];
      } else if f !in h.ignore {
        opts := opts + [f];
      }
    }
    assert fs[..|fs|] == fs;
    data := Join(opts, ",");
  }

  datatype Call = Call(source: string, target: string, fstype: string, flags: Flags, data: string)

  function CallOf(h: Host, f: seq<string>): Call
    requires |f| >= 6
  {
    var (flags, rest) := Options(h, Split(TrimSpace(f[3]), ','));
    Call(Follow(h, f[0]), Follow(h, f[1]), f[2], flags, Join(rest, ","))
  }

  /** The mounts that one line asks for: one, or none for a comment or a short line. */
  function LineCalls(h: Host, line: string): (calls: seq<Call>) {
    var l := DropCR(line);
    if l != "" && l[0] == '#' then []
    else if |Fields(l)| < 6 then []
    else [CallOf(h, Fields(l))]
  }

  function Calls(h: Host, lines: seq<string>): seq<Call> {
    if lines == [] then [] else LineCalls(h, lines[0]) + Calls(h, lines[1..])
  }

  /** The lines before the first that is too long. */
  function Seen(lines: seq<string>): (seen: seq<string>)
    ensures seen <= lines
  {
    if lines == [] || TooLong(lines[0]) then [] else [lines[0]] + Seen(lines[1..])
  }

  /** The mounts of a whole table. */
  function Mounts(h: Host, text: string): seq<Call> {
    Calls(h, Seen(Lines(text)))
  }

  /** The calls that fail, when the mounter fails calls number `fails`. */
  function Failing(calls: seq<Call>, fails: set<nat>): seq<Call> {
    if calls == [] then []
    else Failing(calls[..|calls| - 1], fails) + if |calls| - 1 in fails then [calls[|calls| - 1]] else []
  }

  lemma CallsNext(h: Host, lines: seq<string>, i: nat, done: seq<Call>)
    requires i < |lines| && !TooLong(lines[i])
    ensures done + Calls(h, Seen(lines[i..]))
         == done + LineCalls(h, lines[i]) + Calls(h, Seen(lines[i + 1..]))
  {
    assert lines[i..][1..] == lines[i + 1..];
    var seen := Seen(lines[i..]);
    assert seen[0] == lines[i] && seen[1..] == Seen(lines[i + 1..]);
  }

  lemma FailingSnoc(calls: seq<Call>, c: Call, fails: set<nat>)
    ensures Failing(calls + [c], fails) == Failing(calls, fails) + if |calls| in fails then [c] else []
  {
    assert (calls + [c])[..|calls|] == calls;
  }

  /** One line of the loop of `mount`: nothing, or one call of the mounter. */
  method MountLine(h: Host, line: string) returns (call: Option<Call>)
    ensures LineCalls(h, line) == if call.Some? then [call.value] else []
  {
    var l := DropCR(line);
    if l != "" && l[0] == '#' {
      return None;
    }
    var f := Fields(l);
    if |f| < 6 {
      return None;
    }
    var flags, data := ParseOptions(h, f[3]);
    call := Some(Call(Follow(h, f[0]), Follow(h, f[1]), f[2], flags, data));
  }

  /** `mount`: it tries every entry, whatever fails, and reports the calls that failed. The mounter may
      fail any of the calls, also one of two equal ones. */
  method Mount(h: Host, fstab: string, fails: set<nat>) returns (calls: seq<Call>, errs: seq<Call>)
    ensures calls == Mounts(h, fstab)
    ensures errs == Failing(calls, fails)
  {
    var lines := Lines(fstab);
    ghost var all := Mounts(h, fstab);
    calls, errs := [], [];
    assert lines[0..] == lines;
    var i := 0;
    while i < |lines| && !TooLong(lines[i])
      invariant i <= |lines|
      invariant all == calls + Calls(h, Seen(lines[i..]))
      invariant errs == Failing(calls, fails)
    {
      CallsNext(h, lines, i, calls);
      var call := MountLine(h, lines[i]);
      i := i + 1;
      if call.None? {
        assert calls + [] == calls;
        continue;
      }
      FailingSnoc(calls, call.value, fails);
      if |calls| in fails {
        errs := errs + [call.value];
      }
      calls := calls + [call.value];
    }
    assert calls + [] == calls;
  }
}
