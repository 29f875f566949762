// The loop of ninep_forward (server.rs): one `select!` serves both directions of the 9P relay, requests
// from the local client to the channel and replies from the stream to the local client. So whatever
// ends one direction ends the other.
module Forwarding {
  import opened Relay

  /** What a turn of the loop finds: something of the local client's requests, or of the replies to it.
      A reply is written once, and `taken` of its bytes are accepted. */
  datatype Turn =
    | Request(chunk: Chunk)             // read, and accepted by the channel
    | Refused(chunk: Chunk)             // read, but the channel is closed
    | RequestEnd                        // a read of no bytes
    | RequestError
    | Reply(chunk: Chunk, taken: nat)
    | ReplyError(chunk: Chunk)          // the write fails
    | ReplyEnd                          // the stream is over

  datatype End = Running | Finished | SendFailed | IoFailed

  predicate Possible(t: Turn) {
    match t
    case Request(c) => 1 <= |c| <= 128
    case Refused(c) => 1 <= |c| <= 128
    case Reply(c, taken) => taken <= |c|
    case _ => true
  }

  /** A run of the loop: what its turns would find, one after the other, until it ends. What comes after
      that is what it never gets to. */
  ghost predicate IsRun(ts: seq<Turn>) {
    forall i | 0 <= i < |ts| :: Possible(ts[i])
  }

  function EndOf(t: Turn): End {
    match t
    case Request(_) => Running
    case Refused(_) => SendFailed
    case RequestError => IoFailed
    case ReplyError(_) => IoFailed
    case RequestEnd => Finished
    case ReplyEnd => Finished
    case Reply(_, taken) => if taken == 0 then Finished else Running
  }

  predicate Ends(t: Turn) {
    !EndOf(t).Running?
  }

  datatype Direction = Requests | Replies

  /** The bytes of a direction that come with a turn, and those that get through. */
  function Came(t: Turn, d: Direction): Chunk {
    match d
    case Requests => if t.Request? || t.Refused? then t.chunk else []
    case Replies => if t.Reply? || t.ReplyError? then t.chunk else []
  }

  function Went(t: Turn, d: Direction): Chunk
    requires Possible(t)
  {
    match d
    case Requests => if t.Request? then t.chunk else []
    case Replies => if t.Reply? then t.chunk[..t.taken] else []
  }

  /** All bytes of a direction, whether or not the loop gets to them. */
  function Coming(ts: seq<Turn>, d: Direction): Chunk {
    if ts == [] then [] else Came(ts[0], d) + Coming(ts[1..], d)
  }

  /** The bytes of a direction that get through before the loop ends. */
  function Through(ts: seq<Turn>, d: Direction): Chunk
    requires forall i | 0 <= i < |ts| :: Possible(ts[i])
  {
    if ts == [] then []
    else Went(ts[0], d) + (if Ends(ts[0]) then [] else Through(ts[1..], d))
  }

  function LoopEnd(ts: seq<Turn>): End {
    if ts == [] then Running
    else if Ends(ts[0]) then EndOf(ts[0])
    else LoopEnd(ts[1..])
  }

  // ----- the loop -----

  /** After `i` turns that did not end the loop. */
  ghost predicate Done(ts: seq<Turn>, i: nat, sent: seq<Chunk>, written: Chunk) {
    && i <= |ts| && IsRun(ts) && IsRun(ts[i..])
    && Flat(sent) + Through(ts[i..], Requests) == Through(ts, Requests)
    && written + Through(ts[i..], Replies) == Through(ts, Replies)
    && LoopEnd(ts[i..]) == LoopEnd(ts)
  }

  lemma OneTurn(ts: seq<Turn>, i: nat, d: Direction)
    requires IsRun(ts) && i < |ts|
    ensures IsRun(ts[i..]) && IsRun(ts[i + 1..]) && Possible(ts[i])
    ensures Through(ts[i..], d) == Went(ts[i], d) + (if Ends(ts[i]) then [] else Through(ts[i + 1..], d))
    ensures LoopEnd(ts[i..]) == if Ends(ts[i]) then EndOf(ts[i]) else LoopEnd(ts[i + 1..])
  {
    assert ts[i..][1..] == ts[i + 1..];
  }

  lemma Adds(a: Chunk, b: Chunk, c: Chunk)
    ensures a + (b + c) == (a + b) + c && a + [] == a && [] + a == a
  {
  }

  lemma GoesOn(ts: seq<Turn>, i: nat, sent: seq<Chunk>, written: Chunk)
    requires Done(ts, i, sent, written) && i < |ts| && !Ends(ts[i])
    ensures ts[i].Request? && Possible(ts[i]) ==> Done(ts, i + 1, sent + [ts[i].chunk], written)
    ensures ts[i].Reply? && Possible(ts[i]) ==> Done(ts, i + 1, sent, written + ts[i].chunk[..ts[i].taken])
  {
    OneTurn(ts, i, Requests);
    OneTurn(ts, i, Replies);
    FlatSnoc(sent, Went(ts[i], Requests));
    Adds(Flat(sent), Went(ts[i], Requests), Through(ts[i + 1..], Requests));
    Adds(written, Went(ts[i], Replies), Through(ts[i + 1..], Replies));
  }

  lemma Stops(ts: seq<Turn>, i: nat, sent: seq<Chunk>, written: Chunk)
    requires Done(ts, i, sent, written) && (i == |ts| || Ends(ts[i]))
    ensures Flat(sent) == Through(ts, Requests) && written == Through(ts, Replies)
    ensures LoopEnd(ts) == if i == |ts| then Running else EndOf(ts[i])
  {
    Adds(Flat(sent), [], []);
    Adds(written, [], []);
    if i < |ts| {
      OneTurn(ts, i, Requests);
      OneTurn(ts, i, Replies);
      assert Went(ts[i], Requests) + [] == [] && Went(ts[i], Replies) + [] == [];
    }
  }

  /** The loop, with the turns that `select!` takes. */
  method Forward(ts: seq<Turn>) returns (sent: seq<Chunk>, written: Chunk, end: End)
    requires IsRun(ts)
    ensures Flat(sent) == Through(ts, Requests) && forall c | c in sent :: 1 <= |c| <= 128
    ensures written == Through(ts, Replies)
    ensures end == LoopEnd(ts)
  {
    sent, written := [], [];
    assert ts[0..] == ts;
    var i := 0;
    while i < |ts|
      invariant Done(ts, i, sent, written)
      invariant forall c | c in sent :: 1 <= |c| <= 128
    {
      assert Possible(ts[i]);
      if Ends(ts[i]) {
        Stops(ts, i, sent, written);
      } else {
        GoesOn(ts, i, sent, written);
      }
      match ts[i] {
        case Request(buf) =>
          sent := sent + [buf];
        case Refused(_) => return sent, written, SendFailed;
        case RequestError => return sent, written, IoFailed;
        case RequestEnd => return sent, written, Finished;
        case Reply(item, len) =>
          if len == 0 {
            return sent, written, Finished;
          }
          written := written + item[..len];
        case ReplyError(_) => return sent, written, IoFailed;
        case ReplyEnd => return sent, written, Finished;
      }
      i := i + 1;
    }
    Stops(ts, i, sent, written);
    end := Running;
  }

  // ----- what gets through -----

  /** A turn brings nothing of the direction, or all it brings gets through and no turn before it ended
      the loop. */
  predicate Arrives(ts: seq<Turn>, i: nat, d: Direction)
    requires i < |ts|
  {
    Came(ts[i], d) != [] ==>
      Possible(ts[i]) && Went(ts[i], d) == Came(ts[i], d) && forall j | 0 <= j < i :: !Ends(ts[j])
  }

  lemma {:induction false} ThroughIsLess(ts: seq<Turn>, d: Direction)
    requires IsRun(ts)
    ensures |Through(ts, d)| <= |Coming(ts, d)|
  {
    if ts != [] {
      ThroughIsLess(ts[1..], d);
      assert |Went(ts[0], d)| <= |Came(ts[0], d)|;
    }
  }

  lemma {:induction false} NothingComes(ts: seq<Turn>, d: Direction)
    ensures Coming(ts, d) == [] <==> forall i | 0 <= i < |ts| :: Came(ts[i], d) == []
  {
    if ts != [] {
      NothingComes(ts[1..], d);
      assert forall i | 1 <= i < |ts| :: ts[i] == ts[1..][i - 1];
      assert Coming(ts, d) == [] <==> Came(ts[0], d) == [] && Coming(ts[1..], d) == [];
    }
  }

  lemma ArrivesTail(ts: seq<Turn>, d: Direction)
    requires ts != [] && !Ends(ts[0])
    ensures (forall i | 1 <= i < |ts| :: Arrives(ts, i, d))
            <==> forall i | 0 <= i < |ts| - 1 :: Arrives(ts[1..], i, d)
  {
    forall i | 1 <= i < |ts|
      ensures Arrives(ts, i, d) <==> Arrives(ts[1..], i - 1, d)
    {
      assert forall j | 1 <= j < i :: ts[j] == ts[1..][j - 1];
    }
    if forall i | 1 <= i < |ts| :: Arrives(ts, i, d) {
      forall i | 0 <= i < |ts| - 1 ensures Arrives(ts[1..], i, d) {
        assert Arrives(ts, i + 1, d);
      }
    }
  }

  lemma SameSum(a: Chunk, b: Chunk, c: Chunk, e: Chunk)
    requires a <= b && |c| <= |e|
    ensures a + c == b + e <==> a == b && c == e
  {
    if a + c == b + e {
      assert |a| == |b|;
      assert (a + c)[|a|..] == c && (b + e)[|b|..] == e;
    }
  }

  lemma FirstTurn(ts: seq<Turn>, d: Direction)
    requires IsRun(ts) && ts != [] && |Through(ts[1..], d)| <= |Coming(ts[1..], d)|
    ensures Possible(ts[0])
    ensures Through(ts, d) == Coming(ts, d)
            <==> && Went(ts[0], d) == Came(ts[0], d)
                 && (if Ends(ts[0]) then Coming(ts[1..], d) == [] else Through(ts[1..], d) == Coming(ts[1..], d))
  {
    assert Went(ts[0], d) <= Came(ts[0], d);
    SameSum(Went(ts[0], d), Came(ts[0], d), if Ends(ts[0]) then [] else Through(ts[1..], d), Coming(ts[1..], d));
  }

  /** Exactly when a direction of the relay loses nothing. */
  lemma {:induction false} ConservedExactly(ts: seq<Turn>, d: Direction)
    requires IsRun(ts)
    ensures Through(ts, d) == Coming(ts, d) <==> forall i | 0 <= i < |ts| :: Arrives(ts, i, d)
  {
    if ts != [] {
      ThroughIsLess(ts[1..], d);
      FirstTurn(ts, d);
      assert Arrives(ts, 0, d) <==> Went(ts[0], d) == Came(ts[0], d);
      if Ends(ts[0]) {
        NothingComes(ts[1..], d);
        EndedFirst(ts, d);
      } else {
        ConservedExactly(ts[1..], d);
        ArrivesTail(ts, d);
      }
    }
  }

  lemma EndedFirst(ts: seq<Turn>, d: Direction)
    requires ts != [] && Ends(ts[0])
    ensures (forall i | 1 <= i < |ts| :: Arrives(ts, i, d))
            <==> forall i | 0 <= i < |ts| - 1 :: Came(ts[1..][i], d) == []
  {
    forall i | 1 <= i < |ts| ensures Arrives(ts, i, d) <==> Came(ts[1..][i - 1], d) == [] {
      assert ts[1..][i - 1] == ts[i];
    }
    if forall i | 1 <= i < |ts| :: Arrives(ts, i, d) {
      forall i | 0 <= i < |ts| - 1 ensures Came(ts[1..][i], d) == [] {
        assert Arrives(ts, i + 1, d);
      }
    }
  }

  /** Replies reach the local client whole if and only if the write of each takes its whole chunk, and the
      loop does not end before the last of them: neither with the requests (their end, an error, a closed
      channel) nor at an empty chunk, a write that takes nothing or one that fails. */
  lemma RepliesConservedExactly(ts: seq<Turn>)
    requires IsRun(ts)
    ensures Through(ts, Replies) == Coming(ts, Replies)
            <==> forall i | 0 <= i < |ts| && (ts[i].Reply? || ts[i].ReplyError?) && ts[i].chunk != [] ::
                   && ts[i].Reply? && ts[i].taken == |ts[i].chunk|
                   && forall j | 0 <= j < i :: !Ends(ts[j])
  {
    ConservedExactly(ts, Replies);
    forall i | 0 <= i < |ts|
      ensures Arrives(ts, i, Replies)
              <==> ((ts[i].Reply? || ts[i].ReplyError?) && ts[i].chunk != [] ==>
                      && ts[i].Reply? && ts[i].taken == |ts[i].chunk|
                      && forall j | 0 <= j < i :: !Ends(ts[j]))
    {
      assert Possible(ts[i]);
    }
  }

  /** Requests reach the channel whole if and only if none is refused and the loop does not end before
      the last of them, which a reply can make it do. */
  lemma RequestsConservedExactly(ts: seq<Turn>)
    requires IsRun(ts)
    ensures Through(ts, Requests) == Coming(ts, Requests)
            <==> forall i | 0 <= i < |ts| && (ts[i].Request? || ts[i].Refused?) ::
                   ts[i].Request? && forall j | 0 <= j < i :: !Ends(ts[j])
  {
    ConservedExactly(ts, Requests);
    forall i | 0 <= i < |ts|
      ensures Arrives(ts, i, Requests)
              <==> (ts[i].Request? || ts[i].Refused? ==> ts[i].Request? && forall j | 0 <= j < i :: !Ends(ts[j]))
    {
      assert Possible(ts[i]);
    }
  }

  /** How the loop ends: with the first turn that is neither a request that the channel takes nor a reply of
      which some is taken - in order at the end of either stream and at a write that takes nothing, and
      with an error at any other. */
  lemma {:induction false} EndsAtFirst(ts: seq<Turn>, k: nat)
    requires k < |ts| && forall j | 0 <= j < k :: ts[j].Request? || (ts[j].Reply? && ts[j].taken > 0)
    requires !ts[k].Request? && (ts[k].Reply? ==> ts[k].taken == 0)
    ensures LoopEnd(ts) == if ts[k].Refused? then SendFailed
                           else if ts[k].RequestError? || ts[k].ReplyError? then IoFailed
                           else Finished
    decreases k
  {
    if k > 0 {
      EndsAtFirst(ts[1..], k - 1);
    }
  }

  /** ... and without such a turn it goes on. */
  lemma {:induction false} GoesOnWithout(ts: seq<Turn>)
    requires forall j | 0 <= j < |ts| :: ts[j].Request? || (ts[j].Reply? && ts[j].taken > 0)
    ensures LoopEnd(ts) == Running
  {
    if ts != [] {
      GoesOnWithout(ts[1..]);
    }
  }

  /** Replies can be lost although every write takes its whole chunk and none is empty: the local client
      shuts its requests down after the first of two. */
  lemma RequestEndDropsReplies(a: Chunk, b: Chunk) returns (ts: seq<Turn>)
    requires a != [] && b != []
    ensures IsRun(ts)
    ensures forall i | 0 <= i < |ts| && ts[i].Reply? :: ts[i].chunk != [] && ts[i].taken == |ts[i].chunk|
    ensures Coming(ts, Replies) == a + b && Through(ts, Replies) == a
  {
    ts := [Reply(a, |a|), RequestEnd, Reply(b, |b|)];
    assert ts[1..] == [RequestEnd, Reply(b, |b|)] && ts[1..][1..] == [Reply(b, |b|)];
    assert [Reply(b, |b|)][1..] == [];
    assert Coming([Reply(b, |b|)], Replies) == b;
  }
}
