// The keyboard input of a session (client/client.go TTYIn, client/fns.go SSHStdin): bytes are copied
// one by one, and an escape after a newline closes the session.
module Escape {
  type Byte = b: int | 0 <= b < 256

  const NEWLINE: Byte := 10
  const RETURN: Byte := 13
  const DOT: Byte := 46
  const TILDE: Byte := 126

  predicate IsNewline(b: Byte) {
    b == NEWLINE || b == RETURN
  }

  predicate IsPlain(b: Byte) {
    !IsNewline(b) && b != DOT && b != TILDE
  }

  // ----- the machine -----

  datatype State = State(newLine: bool, tilde: bool)

  function Next(st: State, b: Byte): State {
    if IsPlain(b) then State(false, false)
    else if IsNewline(b) then st.(newLine := true)
    else if b == TILDE && st.newLine then State(false, true)
    else st
  }

  /** What is written when a byte is read and the session stays open. */
  function Emit(st: State, b: Byte): seq<Byte> {
    if IsPlain(b) && st.tilde then [TILDE, b]
    else if b == TILDE && st.newLine then []
    else [b]
  }

  function After(s: seq<Byte>): State {
    if s == [] then State(false, false) else Next(After(s[..|s| - 1]), s[|s| - 1])
  }

  function Out(s: seq<Byte>): seq<Byte> {
    if s == [] then [] else Out(s[..|s| - 1]) + Emit(After(s[..|s| - 1]), s[|s| - 1])
  }

  predicate Closes(s: seq<Byte>, i: nat)
    requires i < |s|
  {
    s[i] == DOT && After(s[..i]).tilde
  }

  predicate Open(s: seq<Byte>) {
    forall i | 0 <= i < |s| :: !Closes(s, i)
  }

  /** What is read before the session closes. */
  function Live(s: seq<Byte>, i: nat): (k: nat)
    requires i <= |s|
    ensures i <= k <= |s| && (forall j | i <= j < k :: !Closes(s, j)) && (k < |s| ==> Closes(s, k))
    decreases |s| - i
  {
    if i == |s| || Closes(s, i) then i else Live(s, i + 1)
  }

  // ----- the same said of the bytes -----

  predicate AllDots(s: seq<Byte>) {
    forall i | 0 <= i < |s| :: s[i] == DOT
  }

  predicate AllWaiting(s: seq<Byte>) {
    forall i | 0 <= i < |s| :: IsNewline(s[i]) || s[i] == TILDE
  }

  /** A newline, then dots. */
  ghost predicate EndsLine(s: seq<Byte>) {
    exists a | 0 <= a < |s| :: IsNewline(s[a]) && AllDots(s[a + 1..])
  }

  /** A newline, dots, a tilde, then newlines and tildes. */
  ghost predicate EndsEscape(s: seq<Byte>) {
    exists b | 0 <= b < |s| :: s[b] == TILDE && EndsLine(s[..b]) && AllWaiting(s[b + 1..])
  }

  lemma DotsSnoc(p: seq<Byte>, b: Byte)
    ensures AllDots(p + [b]) <==> AllDots(p) && b == DOT
    ensures AllWaiting(p + [b]) <==> AllWaiting(p) && (IsNewline(b) || b == TILDE)
  {
    var s := p + [b];
    assert s[|p|] == b && forall i | 0 <= i < |p| :: s[i] == p[i];
  }

  /** Reading on from a line end: a newline always makes one, a dot keeps one. */
  lemma LineEndSnoc(p: seq<Byte>, b: Byte)
    ensures EndsLine(p + [b]) <==> IsNewline(b) || (b == DOT && EndsLine(p))
  {
    var s := p + [b];
    forall a | 0 <= a < |p|
      ensures AllDots(s[a + 1..]) <==> AllDots(p[a + 1..]) && b == DOT
      ensures s[a] == p[a]
    {
      assert s[a + 1..] == p[a + 1..] + [b];
      DotsSnoc(p[a + 1..], b);
    }
    assert s[|p|] == b && s[|p| + 1..] == [];
  }

  lemma {:induction false} NewLineIs(s: seq<Byte>)
    ensures After(s).newLine <==> EndsLine(s)
  {
    if s != [] {
      NewLineIs(s[..|s| - 1]);
      LineEndSnoc(s[..|s| - 1], s[|s| - 1]);
      assert s == s[..|s| - 1] + [s[|s| - 1]];
    }
  }

  /** Reading on from an escape: a tilde at a line end begins one, newlines and tildes keep one. */
  lemma EscapeSnoc(p: seq<Byte>, b: Byte)
    ensures EndsEscape(p + [b]) <==>
            (b == TILDE && EndsLine(p)) || ((IsNewline(b) || b == TILDE) && EndsEscape(p))
  {
    var s := p + [b];
    forall i | 0 <= i < |p|
      ensures AllWaiting(s[i + 1..]) <==> AllWaiting(p[i + 1..]) && (IsNewline(b) || b == TILDE)
      ensures s[i] == p[i] && s[..i] == p[..i]
    {
      assert s[i + 1..] == p[i + 1..] + [b];
      DotsSnoc(p[i + 1..], b);
    }
    assert s[|p|] == b && s[..|p|] == p && s[|p| + 1..] == [];
  }

  lemma OpenPrefix(s: seq<Byte>)
    requires Open(s) && s != []
    ensures Open(s[..|s| - 1])
  {
    var p := s[..|s| - 1];
    forall i | 0 <= i < |p| ensures !Closes(p, i) {
      assert !Closes(s, i);
      assert s[..i] == p[..i];
    }
  }

  /** While the session is open, an escape is under way exactly after a newline, dots, a tilde and any
      newlines and tildes. */
  lemma {:induction false} TildeIs(s: seq<Byte>)
    requires Open(s)
    ensures After(s).tilde <==> EndsEscape(s)
  {
    if s != [] {
      var p, b := s[..|s| - 1], s[|s| - 1];
      assert s == p + [b];
      OpenPrefix(s);
      TildeIs(p);
      NewLineIs(p);
      assert !Closes(s, |p|);
      EscapeSnoc(p, b);
    }
  }

  /** The session closes at the first dot that ends a match of: newline or return, dots, a tilde, any
      newlines, returns and tildes, dot. */
  lemma ClosesAtFirstEscape(s: seq<Byte>, i: nat)
    requires i < |s|
    ensures Live(s, 0) == i <==>
            && s[i] == DOT && EndsEscape(s[..i])
            && forall j | 0 <= j < i :: !(s[j] == DOT && EndsEscape(s[..j]))
  {
    var k := Live(s, 0);
    forall j | 0 <= j <= k && j < |s| ensures Closes(s, j) <==> s[j] == DOT && EndsEscape(s[..j]) {
      OpenUpTo(s, j);
      TildeIs(s[..j]);
    }
  }

  lemma OpenUpTo(s: seq<Byte>, k: nat)
    requires k <= |s| && forall j | 0 <= j < k :: !Closes(s, j)
    ensures Open(s[..k])
  {
    forall i | 0 <= i < |s[..k]| ensures !Closes(s[..k], i) {
      assert s[..k][..i] == s[..i];
      assert !Closes(s, i);
    }
  }

  // ----- what is forwarded -----

  function WithoutTildes(s: seq<Byte>): seq<Byte> {
    if s == [] then []
    else WithoutTildes(s[..|s| - 1]) + if s[|s| - 1] == TILDE then [] else [s[|s| - 1]]
  }

  lemma {:induction false} WithoutTildesAppend(a: seq<Byte>, b: seq<Byte>)
    ensures WithoutTildes(a + b) == WithoutTildes(a) + WithoutTildes(b)
    decreases |b|
  {
    if b == [] {
      assert a + b == a;
    } else {
      var last := b[|b| - 1];
      assert (a + b)[|a + b| - 1] == last && (a + b)[..|a + b| - 1] == a + b[..|b| - 1];
      WithoutTildesAppend(a, b[..|b| - 1]);
    }
  }

  lemma EmitKeeps(st: State, b: Byte)
    ensures WithoutTildes(Emit(st, b)) == WithoutTildes([b])
  {
    assert [b][..0] == [];
    assert [TILDE, b][..1] == [TILDE] && [TILDE][..0] == [];
    assert WithoutTildes([TILDE]) == [];
  }

  /** All bytes other than tildes are forwarded unchanged and in order. */
  lemma {:induction false} OthersAreForwarded(s: seq<Byte>)
    ensures WithoutTildes(Out(s)) == WithoutTildes(s)
  {
    if s != [] {
      var p, b := s[..|s| - 1], s[|s| - 1];
      OthersAreForwarded(p);
      WithoutTildesAppend(Out(p), Emit(After(p), b));
      EmitKeeps(After(p), b);
      WithoutTildesAppend(p, [b]);
      assert s == p + [b];
    }
  }

  /** The tildes that are dropped: each was held back while another was still held back. */
  function Dropped(s: seq<Byte>): nat {
    if s == [] then 0
    else
      var st := After(s[..|s| - 1]);
      Dropped(s[..|s| - 1]) + if s[|s| - 1] == TILDE && st.newLine && st.tilde then 1 else 0
  }

  /** Every byte read is forwarded, held back or a dropped tilde. */
  lemma {:induction false} BytesAreConserved(s: seq<Byte>)
    requires Open(s)
    ensures |s| == |Out(s)| + Dropped(s) + if After(s).tilde then 1 else 0
  {
    if s != [] {
      OpenPrefix(s);
      BytesAreConserved(s[..|s| - 1]);
      assert !Closes(s, |s| - 1);
    }
  }

  /** No newline is read while an escape is under way. */
  predicate Calm(s: seq<Byte>) {
    forall i | 0 <= i < |s| :: IsNewline(s[i]) ==> !After(s[..i]).tilde
  }

  lemma CalmPrefix(s: seq<Byte>, k: nat)
    requires Calm(s) && k <= |s|
    ensures Calm(s[..k])
  {
    forall i | 0 <= i < |s[..k]| && IsNewline(s[..k][i]) ensures !After(s[..k][..i]).tilde {
      assert s[..k][..i] == s[..i];
    }
  }

  /** What was read, less the tilde that is held back. */
  predicate Forwards(p: seq<Byte>, st: State, out: seq<Byte>) {
    && (st.tilde ==> p != [] && p[|p| - 1] == TILDE && !st.newLine)
    && out == if st.tilde && p != [] then p[..|p| - 1] else p
  }

  lemma ForwardsOn(p: seq<Byte>, st: State, out: seq<Byte>, b: Byte)
    requires Forwards(p, st, out) && (st.tilde ==> b != DOT && !IsNewline(b))
    ensures Forwards(p + [b], Next(st, b), out + Emit(st, b))
  {
    assert (p + [b])[..|p|] == p;
    if st.tilde {
      assert p == p[..|p| - 1] + [TILDE];
    }
  }

  lemma Snoc(p: seq<Byte>, b: Byte)
    ensures After(p + [b]) == Next(After(p), b)
    ensures Out(p + [b]) == Out(p) + Emit(After(p), b)
  {
    assert (p + [b])[..|p|] == p;
  }

  lemma CalmSnoc(p: seq<Byte>, b: Byte)
    requires Open(p + [b]) && Calm(p + [b])
    ensures Open(p) && Calm(p) && (After(p).tilde ==> b != DOT && !IsNewline(b))
  {
    var s := p + [b];
    assert s[..|p|] == p && s[|p|] == b;
    OpenPrefix(s);
    CalmPrefix(s, |p|);
    assert !Closes(s, |p|);
  }

  lemma {:induction false} CalmOut(s: seq<Byte>)
    requires Open(s) && Calm(s)
    ensures Forwards(s, After(s), Out(s))
  {
    if s != [] {
      var p, b := s[..|s| - 1], s[|s| - 1];
      assert s == p + [b];
      CalmSnoc(p, b);
      CalmOut(p);
      Snoc(p, b);
      ForwardsOn(p, After(p), Out(p), b);
    }
  }

  lemma {:induction false} OutGrows(s: seq<Byte>, k: nat)
    requires k <= |s|
    ensures Out(s[..k]) <= Out(s)
  {
    if k == |s| {
      assert s[..k] == s;
    } else {
      OutGrows(s[..|s| - 1], k);
      assert s[..|s| - 1][..k] == s[..k];
    }
  }

  lemma FirstDisturbance(s: seq<Byte>) returns (i: nat)
    requires !Calm(s)
    ensures i < |s| && IsNewline(s[i]) && After(s[..i]).tilde && Calm(s[..i])
  {
    i :| i < |s| && IsNewline(s[i]) && After(s[..i]).tilde;
    while !Calm(s[..i])
      invariant i < |s| && IsNewline(s[i]) && After(s[..i]).tilde
      decreases i
    {
      var j :| 0 <= j < i && IsNewline(s[..i][j]) && After(s[..i][..j]).tilde;
      assert s[..i][..j] == s[..j];
      i := j;
    }
  }

  lemma Disturbed(s: seq<Byte>)
    requires Open(s) && !Calm(s)
    ensures Out(s) != s
  {
    var i := FirstDisturbance(s);
    OpenUpTo(s, i);
    CalmOut(s[..i]);
    assert s[..i + 1][..i] == s[..i];
    assert Out(s[..i + 1]) == Out(s[..i]) + [s[i]];
    OutGrows(s, i + 1);
    assert Out(s)[i - 1] == s[i];
    assert s[..i][i - 1] == TILDE;
  }

  lemma CalmIs(s: seq<Byte>)
    requires Open(s)
    ensures Calm(s) <==> forall i | 0 <= i < |s| && IsNewline(s[i]) :: !EndsEscape(s[..i])
  {
    forall i | 0 <= i < |s| ensures After(s[..i]).tilde <==> EndsEscape(s[..i]) {
      OpenUpTo(s, i);
      TildeIs(s[..i]);
    }
  }

  /** The input is forwarded unchanged if and only if it does not stop, and no newline comes, while an
      escape is under way. */
  lemma ForwardedUnchanged(s: seq<Byte>)
    requires Open(s)
    ensures Out(s) == s <==>
            !EndsEscape(s) && forall i | 0 <= i < |s| && IsNewline(s[i]) :: !EndsEscape(s[..i])
  {
    TildeIs(s);
    CalmIs(s);
    if Calm(s) {
      CalmOut(s);
    } else {
      Disturbed(s);
    }
  }

  /** What each byte of an open session adds to what is forwarded: a tilde at a line end nothing, for it is
      held back; a byte other than newlines, dots and tildes the tilde that is held back, if one is, and
      then itself; and all else itself. */
  lemma EachByteAdds(s: seq<Byte>, b: Byte)
    requires Open(s + [b])
    ensures Out(s + [b]) == Out(s) + (if b == TILDE && EndsLine(s) then []
                                      else if b !in {10, 13, 46, 126} && EndsEscape(s) then [TILDE, b]
                                      else [b])
  {
    OpenPrefix(s + [b]);
    assert (s + [b])[..|s|] == s;
    NewLineIs(s);
    TildeIs(s);
    Snoc(s, b);
  }

  // ----- the program -----

  /** The pipe to the session: it takes a number of bytes and then fails. */
  class Pipe {
    var written: seq<Byte>
    var room: nat

    constructor (n: nat)
      ensures written == [] && room == n
    {
      written, room := [], n;
    }

    method Write(b: Byte) returns (ok: bool)
      modifies this
      ensures ok == (old(room) > 0)
      ensures written == old(written) + if ok then [b] else []
      ensures room == old(room) - if ok then 1 else 0
    {
      ok := room > 0;
      if ok {
        written := written + [b];
        room := room - 1;
      } else {
        written := written + [];
      }
    }
  }

  function Cut(s: seq<Byte>, n: nat): seq<Byte> {
    if n < |s| then s[..n] else s
  }

  lemma CutStep(got: seq<Byte>, emit: seq<Byte>, all: seq<Byte>, room: nat)
    requires got + emit <= all && |got| <= room < |got| + |emit|
    ensures Cut(all, room) == got + Cut(emit, room - |got|)
  {
    assert all[..room] == (got + emit)[..room] == got + emit[..room - |got|];
  }

  datatype Status = Going | Closed | Failed

  /** The switch on one byte. */
  method CopyByte(st: State, b: Byte, w: Pipe) returns (next: State, status: Status)
    modifies w
    ensures status == if b == DOT && st.tilde then Closed
                      else if |Emit(st, b)| > old(w.room) then Failed
                      else Going
    ensures status.Closed? ==> w.written == old(w.written)
    ensures !status.Closed? ==> w.written == old(w.written) + Cut(Emit(st, b), old(w.room))
    ensures status.Going? ==> next == Next(st, b) && w.room == old(w.room) - |Emit(st, b)|
  {
    var newLine, tilde := st.newLine, st.tilde;
    var ok := true;
    status := Going;
    if b == NEWLINE || b == RETURN {
      newLine := true;
      ok := w.Write(b);
    } else if b == TILDE {
      if newLine {
        newLine, tilde := false, true;
      } else {
        ok := w.Write(TILDE);
      }
    } else if b == DOT {
      if tilde {
        return st, Closed;
      }
      ok := w.Write(b);
    } else {
      newLine := false;
      if tilde {
        ok := w.Write(TILDE);
        if !ok {
          return st, Failed;
        }
        tilde := false;
      }
      ok := w.Write(b);
    }
    next := State(newLine, tilde);
    if !ok {
      status := Failed;
    }
  }

  lemma LiveNext(input: seq<Byte>, i: nat)
    requires i < Live(input, 0)
    ensures !(input[i] == DOT && After(input[..i]).tilde)
    ensures Out(input[..i + 1]) == Out(input[..i]) + Emit(After(input[..i]), input[i])
    ensures After(input[..i + 1]) == Next(After(input[..i]), input[i])
    ensures Out(input[..i + 1]) <= Out(input[..Live(input, 0)])
  {
    var end := Live(input, 0);
    assert !Closes(input, i);
    assert input[..i + 1][..i] == input[..i];
    OutGrows(input[..end], i + 1);
    assert input[..end][..i + 1] == input[..i + 1];
  }

  /** The states and outputs before and after byte `i`, which does not close the session. */
  predicate IsStep(input: seq<Byte>, states: seq<State>, outs: seq<seq<Byte>>, i: nat)
    requires i < |input| && i + 1 < |states| && |outs| == |states|
  {
    && !(input[i] == DOT && states[i].tilde)
    && outs[i + 1] == outs[i] + Emit(states[i], input[i])
    && states[i + 1] == Next(states[i], input[i])
    && outs[i + 1] <= outs[|outs| - 1]
  }

  /** The states and outputs along the input up to its closing point. */
  lemma Trace(input: seq<Byte>) returns (states: seq<State>, outs: seq<seq<Byte>>)
    ensures var end := Live(input, 0);
            && |states| == |outs| == end + 1
            && states[0] == State(false, false) && outs[0] == []
            && (forall i | 0 <= i < end :: IsStep(input, states, outs, i))
            && outs[end] == Out(input[..end])
            && (end < |input| ==> input[end] == DOT && states[end].tilde)
  {
    var end := Live(input, 0);
    states := seq(end + 1, i requires 0 <= i <= end => After(input[..i]));
    outs := seq(end + 1, i requires 0 <= i <= end => Out(input[..i]));
    forall i | 0 <= i < end ensures IsStep(input, states, outs, i) {
      LiveNext(input, i);
    }
    assert end < |input| ==> Closes(input, end);
  }

  /** `TTYIn`, and `SSHStdin`, which does the same: what is written is the output for the input up to
      the closing escape, cut where the pipe fails; the session is closed if the escape is reached. */
  method CopyInput(input: seq<Byte>, w: Pipe) returns (closed: bool)
    modifies w
    ensures var live := Out(input[..Live(input, 0)]);
            && w.written == old(w.written) + Cut(live, old(w.room))
            && closed == (Live(input, 0) < |input| && |live| <= old(w.room))
  {
    var st := State(false, false);
    ghost var end := Live(input, 0);
    ghost var states, outs := Trace(input);
    var i := 0;
    while i < |input|
      invariant i <= end
      invariant st == states[i]
      invariant w.written == old(w.written) + outs[i] && w.room == old(w.room) - |outs[i]|
    {
      assert i < end ==> IsStep(input, states, outs, i);
      var next, status := CopyByte(st, input[i], w);
      if status == Closed {
        return true;
      }
      if status == Failed {
        CutStep(outs[i], Emit(st, input[i]), outs[end], old(w.room));
        return false;
      }
      st := next;
      i := i + 1;
    }
    closed := false;
  }
}
