// The byte relay of p9cpu: a task reads chunks from a socket and sends them down a channel (server.rs
// copy_to and the requests of ninep_forward); at the other end the chunks become a byte stream again
// (client.rs StreamReader, SenderWriter). The loop of ninep_forward as a whole is in Forwarding.
module Relay {
  import opened Wrappers

  type Byte = b: int | 0 <= b < 256
  type Chunk = seq<Byte>

  function Flat(chunks: seq<Chunk>): Chunk {
    if chunks == [] then [] else chunks[0] + Flat(chunks[1..])
  }

  lemma {:induction false} FlatSnoc(chunks: seq<Chunk>, c: Chunk)
    ensures Flat(chunks + [c]) == Flat(chunks) + c
  {
    if chunks == [] {
      assert chunks + [c] == [c] && [c][1..] == [];
    } else {
      assert (chunks + [c])[0] == chunks[0] && (chunks + [c])[1..] == chunks[1..] + [c];
      FlatSnoc(chunks[1..], c);
      assert chunks[0] + (Flat(chunks[1..]) + c) == chunks[0] + Flat(chunks[1..]) + c;
    }
  }

  // ----- reading -----

  /** The channel between sender and receiver: the chunks on their way, and whether more can come. */
  datatype Pipe = Pipe(queue: seq<Chunk>, open: bool)

  datatype Reader = Reader(buffer: Chunk, consumed: nat) {
    predicate Valid() {
      consumed <= |buffer|
    }

    function Rest(): Chunk
      requires Valid()
    {
      buffer[consumed..]
    }
  }

  datatype Poll = Pending | Ready(data: Chunk)

  function Min(a: nat, b: nat): nat {
    if a <= b then a else b
  }

  function Take(r: Reader, room: nat): (Chunk, Reader)
    requires r.Valid()
  {
    var to := Min(room, |r.buffer| - r.consumed) + r.consumed;
    (r.buffer[r.consumed..to], r.(consumed := to))
  }

  /** `poll_read` into a buffer with `room` bytes left. The runtime may let the channel wait even if
      something is in it. */
  function PollRead(p: Pipe, r: Reader, room: nat, wait: bool): (Poll, Pipe, Reader)
    requires r.Valid()
  {
    if room == 0 then (Ready([]), p, r)
    else if r.consumed < |r.buffer| then
      var (data, r') := Take(r, room);
      (Ready(data), p, r')
    else if wait || (p.queue == [] && p.open) then (Pending, p, r)
    else if p.queue == [] then (Ready([]), p, r)
    else
      var (data, r') := Take(Reader(p.queue[0], 0), room);
      (Ready(data), p.(queue := p.queue[1..]), r')
  }

  class Channel {
    var queue: seq<Chunk>
    var open: bool

    constructor ()
      ensures queue == [] && open
    {
      queue, open := [], true;
    }

    function State(): Pipe
      reads this
    {
      Pipe(queue, open)
    }
  }

  class StreamReader {
    const inner: Channel
    var buffer: Chunk
    var consumed: nat

    constructor (stream: Channel)
      ensures inner == stream && buffer == [] && consumed == 0
    {
      inner, buffer, consumed := stream, [], 0;
    }

    function State(): Reader
      reads this
    {
      Reader(buffer, consumed)
    }

    /** `poll_read`. */
    method Read(room: nat, wait: bool) returns (poll: Poll)
      requires State().Valid()
      modifies this, inner
      ensures State().Valid()
      ensures (poll, inner.State(), State()) == PollRead(old(inner.State()), old(State()), room, wait)
    {
      if room == 0 {
        return Ready([]);
      }
      ghost var p0, r0 := inner.State(), State();
      while true
        invariant State().Valid()
        invariant
          || (inner.State() == p0 && State() == r0)
          || (&& r0.consumed == |r0.buffer| && !wait && p0.queue != [] && p0.queue[0] != []
              && inner.State() == p0.(queue := p0.queue[1..]) && State() == Reader(p0.queue[0], 0))
        decreases |inner.queue|
      {
        if consumed < |buffer| {
          var remaining := |buffer| - consumed;
          var readTo := Min(room, remaining) + consumed;
          poll := Ready(buffer[consumed..readTo]);
          consumed := readTo;
          return;
        } else if wait || (inner.queue == [] && inner.open) {
          return Pending;
        } else if inner.queue == [] {
          return Ready([]);
        } else {
          buffer := inner.queue[0];
          inner.queue := inner.queue[1..];
          consumed := 0;
          if buffer == [] {
            return Ready([]);
          }
        }
      }
    }
  }

  // ----- runs -----

  /** A run of a sender and a reader. `read` is all that came from the socket, `hand` the chunk that is
      read but not yet sent, `got` all that the reader delivered. */
  datatype Run = Run(read: Chunk, hand: Option<Chunk>, pipe: Pipe, reader: Reader, got: Chunk)

  datatype Event = Receive(chunk: Chunk) | Send | Stop | Poll(room: nat, wait: bool)

  const CAPACITY := 10

  const START := Run([], None, Pipe([], true), Reader([], 0), [])

  ghost predicate Enabled(s: Run, e: Event) {
    match e
    case Receive(chunk) => s.pipe.open && s.hand.None? && chunk != []
    case Send => s.hand.Some? && |s.pipe.queue| < CAPACITY
    case Stop => s.pipe.open && s.hand.None?
    case Poll(_, _) => true
  }

  function Next(s: Run, e: Event): Run
    requires s.reader.Valid() && (e.Send? ==> s.hand.Some?)
  {
    match e
    case Receive(chunk) => s.(read := s.read + chunk, hand := Some(chunk))
    case Send => s.(hand := None, pipe := s.pipe.(queue := s.pipe.queue + [s.hand.value]))
    case Stop => s.(pipe := s.pipe.(open := false))
    case Poll(room, wait) =>
      var (poll, pipe, reader) := PollRead(s.pipe, s.reader, room, wait);
      s.(pipe := pipe, reader := reader, got := s.got + if poll.Ready? then poll.data else [])
  }

  /** Everything read was delivered, or is in the reader's buffer, in the queue or in hand, in that
      order; no chunk on the way is empty; a stopped sender has nothing in hand; the queue is bounded. */
  ghost predicate Conserves(s: Run) {
    && s.reader.Valid()
    && s.read == s.got + s.reader.Rest() + Flat(s.pipe.queue) + (if s.hand.Some? then s.hand.value else [])
    && (forall c | c in s.pipe.queue :: c != [])
    && (s.hand.Some? ==> s.hand.value != [] && s.pipe.open)
    && |s.pipe.queue| <= CAPACITY
  }

  ghost predicate IsRun(states: seq<Run>, events: seq<Event>) {
    && |states| == |events| + 1
    && states[0] == START
    && forall i | 0 <= i < |events| ::
         states[i].reader.Valid() && Enabled(states[i], events[i]) && states[i + 1] == Next(states[i], events[i])
  }

  lemma TakeSplits(r: Reader, room: nat)
    requires r.Valid()
    ensures var (data, r') := Take(r, room);
            && r'.Valid() && data + r'.Rest() == r.Rest() && |data| <= room
            && (room > 0 && r.Rest() != [] ==> data != [])
  {
  }

  lemma PollConserves(p: Pipe, r: Reader, room: nat, wait: bool)
    requires r.Valid() && forall c | c in p.queue :: c != []
    ensures var (poll, p', r') := PollRead(p, r, room, wait);
            && r'.Valid() && p'.open == p.open && |p'.queue| <= |p.queue| && (forall c | c in p'.queue :: c in p.queue)
            && (if poll.Ready? then poll.data else []) + (r'.Rest() + Flat(p'.queue)) == r.Rest() + Flat(p.queue)
            && (poll.Ready? ==> |poll.data| <= room)
  {
    var (poll, p', r') := PollRead(p, r, room, wait);
    if room > 0 {
      if r.consumed < |r.buffer| {
        TakeSplits(r, room);
        assert poll.data + (r'.Rest() + Flat(p.queue)) == poll.data + r'.Rest() + Flat(p.queue);
      } else if !wait && p.queue != [] {
        TakeSplits(Reader(p.queue[0], 0), room);
        assert r.Rest() == [] && Reader(p.queue[0], 0).Rest() == p.queue[0];
        assert poll.data + (r'.Rest() + Flat(p'.queue)) == poll.data + r'.Rest() + Flat(p'.queue);
      }
    }
  }

  lemma ReceiveOrder(got: Chunk, rest: Chunk, flat: Chunk, c: Chunk)
    ensures got + rest + flat + [] + c == got + rest + flat + c
  {
  }

  lemma SendOrder(got: Chunk, rest: Chunk, flat: Chunk, c: Chunk)
    ensures got + rest + flat + c == got + rest + (flat + c) + []
  {
  }

  lemma PollOrder(got: Chunk, data: Chunk, rest: Chunk, flat: Chunk, rest': Chunk, flat': Chunk, hand: Chunk)
    requires data + (rest' + flat') == rest + flat
    ensures got + rest + flat + hand == got + data + rest' + flat' + hand
  {
    assert got + rest + flat + hand == got + (rest + flat) + hand;
    assert got + (data + (rest' + flat')) + hand == got + data + rest' + flat' + hand;
  }

  lemma PollStepConserves(s: Run, room: nat, wait: bool)
    requires Conserves(s)
    ensures Conserves(Next(s, Poll(room, wait)))
  {
    PollConserves(s.pipe, s.reader, room, wait);
    var (poll, pipe, reader) := PollRead(s.pipe, s.reader, room, wait);
    PollOrder(s.got, if poll.Ready? then poll.data else [], s.reader.Rest(), Flat(s.pipe.queue),
              reader.Rest(), Flat(pipe.queue), if s.hand.Some? then s.hand.value else []);
  }

  lemma SendStepConserves(s: Run)
    requires Conserves(s) && Enabled(s, Send)
    ensures Conserves(Next(s, Send))
  {
    FlatSnoc(s.pipe.queue, s.hand.value);
    SendOrder(s.got, s.reader.Rest(), Flat(s.pipe.queue), s.hand.value);
  }

  lemma StepConserves(s: Run, e: Event)
    requires Conserves(s) && Enabled(s, e)
    ensures Conserves(Next(s, e))
  {
    match e
    case Receive(chunk) => ReceiveOrder(s.got, s.reader.Rest(), Flat(s.pipe.queue), chunk);
    case Send => SendStepConserves(s);
    case Stop =>
    case Poll(room, wait) => PollStepConserves(s, room, wait);
  }

  /** How much a read delivers: as much as there is room for of what is buffered, and else of the next chunk. */
  lemma PollDelivers(p: Pipe, r: Reader, room: nat)
    requires r.Valid() && room > 0
    ensures var (poll, p', r') := PollRead(p, r, room, false);
            if r.Rest() != [] then
              poll == Ready(if room <= |r.Rest()| then r.Rest()[..room] else r.Rest()) && p' == p
            else if p.queue != [] then
              && poll == Ready(if room <= |p.queue[0]| then p.queue[0][..room] else p.queue[0])
              && p' == p.(queue := p.queue[1..])
            else poll == (if p.open then Pending else Ready([])) && p' == p
  {
    if r.Rest() == [] && p.queue != [] {
      assert Reader(p.queue[0], 0).Rest() == p.queue[0];
    }
  }

  /** In every run, for any sizes of reads and any waiting, nothing is lost, repeated or reordered. */
  lemma {:induction false} EveryRunConserves(states: seq<Run>, events: seq<Event>)
    requires IsRun(states, events)
    ensures Conserves(states[|events|]) && |states[|events|].pipe.queue| <= 10
    decreases |events|
  {
    if events != [] {
      var n := |events| - 1;
      EveryRunConserves(states[..n + 1], events[..n]);
      StepConserves(states[n], events[n]);
    }
  }

  /** A read with room that delivers nothing happens exactly at the end of the stream: the sender has
      stopped, and everything read was delivered. */
  lemma EmptyReadIsEnd(states: seq<Run>, events: seq<Event>, room: nat, wait: bool)
    requires IsRun(states, events) && room > 0
    ensures var s := states[|events|];
            && s.reader.Valid()
            && (PollRead(s.pipe, s.reader, room, wait).0 == Ready([])
                <==> !wait && !s.pipe.open && s.got == s.read)
  {
    EveryRunConserves(states, events);
    var s := states[|events|];
    if s.reader.Rest() != [] {
      TakeSplits(s.reader, room);
    } else if s.pipe.queue != [] {
      assert s.pipe.queue[0] in s.pipe.queue;
      TakeSplits(Reader(s.pipe.queue[0], 0), room);
    }
    var hand := if s.hand.Some? then s.hand.value else [];
    assert |s.read| == |s.got| + |s.reader.Rest()| + |Flat(s.pipe.queue)| + |hand|;
    if s.pipe.queue != [] {
      assert s.pipe.queue[0] in s.pipe.queue;
      assert |Flat(s.pipe.queue)| >= |s.pipe.queue[0]|;
    }
    if s.reader.Rest() == [] && s.pipe.queue == [] && hand == [] {
      assert s.got + [] + [] + [] == s.got;
    }
  }

  /** A read with room waits only if the runtime lets it or nothing has arrived. */
  lemma ReadsDeliver(states: seq<Run>, events: seq<Event>, room: nat)
    requires IsRun(states, events) && room > 0
    ensures var s := states[|events|];
            && s.reader.Valid()
            && (PollRead(s.pipe, s.reader, room, false).0 == Pending
                <==> s.pipe.open && s.reader.Rest() == [] && s.pipe.queue == [])
  {
    EveryRunConserves(states, events);
  }

  // ----- the sending loop -----

  type Errno = nat

  /** A socket or pipe: what is still to come, of which each read gets some, and a read may fail. */
  class Source {
    var rest: Chunk

    constructor (bytes: Chunk)
      ensures rest == bytes
    {
      rest := bytes;
    }

    method Read(max: nat) returns (r: Result<Chunk, Errno>)
      requires max > 0
      modifies this
      ensures r.Err? ==> rest == old(rest)
      ensures r.Ok? ==> r.value + rest == old(rest) && |r.value| <= max
      ensures r.Ok? ==> (r.value == [] <==> old(rest) == [])
    {
      if * {
        return Err(5);
      }
      var n :| 0 <= n <= |rest| && n <= max && (n == 0 <==> rest == []) by {
        assert rest != [] ==> 1 <= |rest| && 1 <= max;
      }
      r := Ok(rest[..n]);
      rest := rest[n..];
    }
  }

  /** How a sending loop ends: at the end of the source, with an error of it, or with a chunk that could
      not be sent because the receiver is gone. */
  datatype CopyEnd = Ended | ReadFailed(errno: Errno) | ChannelClosed(unsent: Chunk)

  function Unsent(end: CopyEnd): Chunk {
    if end.ChannelClosed? then end.unsent else []
  }

  lemma SendOne(sent: seq<Chunk>, buf: Chunk, rest: Chunk, all: Chunk)
    requires Flat(sent) + (buf + rest) == all
    ensures Flat(sent + [buf]) + rest == all && Flat(sent) + buf + rest == all
  {
    FlatSnoc(sent, buf);
    assert Flat(sent) + buf + rest == Flat(sent) + (buf + rest);
  }

  /** `copy_to`, which the request direction of the 9P relay repeats: chunks of 1 to 128 bytes, which
      together with a chunk that could not be sent are what the source gave. The receiver may go away
      after some number of chunks. */
  method CopyTo(src: Source, gone: Option<nat>) returns (sent: seq<Chunk>, end: CopyEnd)
    modifies src
    ensures Flat(sent) + Unsent(end) + src.rest == old(src.rest)
    ensures end.Ended? ==> src.rest == []
    ensures end.ChannelClosed? ==> gone == Some(|sent|) && 1 <= |end.unsent| <= 128
    ensures gone.Some? ==> |sent| <= gone.value
    ensures forall c | c in sent :: 1 <= |c| <= 128
  {
    sent := [];
    while true
      invariant Flat(sent) + src.rest == old(src.rest)
      invariant gone.Some? ==> |sent| <= gone.value
      invariant forall c | c in sent :: 1 <= |c| <= 128
      decreases |src.rest|
    {
      var read := src.Read(128);
      if read.Err? {
        assert Flat(sent) + [] == Flat(sent);
        return sent, ReadFailed(read.error);
      }
      var buf := read.value;
      if |buf| == 0 {
        break;
      }
      SendOne(sent, buf, src.rest, old(src.rest));
      if gone == Some(|sent|) {
        return sent, ChannelClosed(buf);
      }
      sent := sent + [buf];
    }
    assert Flat(sent) + [] == Flat(sent);
    end := Ended;
  }

  // ----- the writing end -----

  datatype WriteError = SenderDown | ChannelDown

  datatype WritePoll = WritePending | Written(r: Result<nat, WriteError>)

  /** How the channel answers a request for a place. */
  datatype Reserve = Full | Gone | Free

  class SenderWriter {
    const inner: Channel
    var taken: bool       // the sender was shut down

    constructor (c: Channel)
      ensures inner == c && !taken
    {
      inner, taken := c, false;
    }

    /** `poll_write`: a write is refused, waits, or sends all of its bytes as one chunk; an empty write
        sends nothing, so no empty chunk is ever sent. */
    method Write(buf: Chunk, place: Reserve) returns (poll: WritePoll)
      modifies inner
      ensures inner.open == old(inner.open)
      ensures inner.queue == old(inner.queue) + (if poll == Written(Ok(|buf|)) && buf != [] then [buf] else [])
      ensures poll == if buf == [] then Written(Ok(0))
                      else if taken then Written(Err(SenderDown))
                      else match place
                           case Full => WritePending
                           case Gone => Written(Err(ChannelDown))
                           case Free => Written(Ok(|buf|))
      ensures (forall c | c in old(inner.queue) :: c != []) ==> forall c | c in inner.queue :: c != []
    {
      if buf == [] {
        return Written(Ok(0));
      }
      if taken {
        return Written(Err(SenderDown));
      }
      match place
      case Full => return WritePending;
      case Gone => return Written(Err(ChannelDown));
      case Free =>
        inner.queue := inner.queue + [buf];
        poll := Written(Ok(|buf|));
    }

    /** `poll_shutdown`: it closes the sender once. */
    method Shutdown() returns (r: Result<(), WriteError>)
      modifies this, inner
      ensures taken && inner.queue == old(inner.queue)
      ensures r == if old(taken) then Err(SenderDown) else Ok(())
      ensures inner.open == (old(taken) && old(inner.open))
    {
      if taken {
        return Err(SenderDown);
      }
      taken := true;
      inner.open := false;
      r := Ok(());
    }
  }
}
