// `read_msg` and `write_msg` (serialize.rs): whole messages, and streams of them.
module Messages {
  import opened Wrappers
  import opened Protocol
  import opened Wire
  import opened WireLaws
  import opened Codec

  /** The operands of `<<` for a message: its type code, its tag and the operands of its arm. */
  function MsgItems(m: Msg): seq<Item> {
    [U8(TypeCode(m.body)), U16(m.tag)] + Operands(m.body)
  }

  function Write(m: Msg): seq<u8> {
    BytesAll(MsgItems(m))
  }

  /** `Msg::decode`: the tag is read before an unknown type code is rejected. */
  function Read(s: seq<u8>): Result<(Msg, seq<u8>), Error> {
    var (b, t) :- Take(s, 1);
    var (g, u) :- Take(t, 2);
    match Shape(Byte(b))
    case None => Err(InvalidType)
    case Some(ks) =>
      var (xs, v) :- DecodeAll(ks, u);
      Ok((Msg(Short(g), Assemble(Byte(b), xs)), v))
  }

  function MsgKinds(m: Msg): seq<Kind> {
    ArmsThere(m.body);
    [KU8, KU16] + Shape(TypeCode(m.body)).value
  }

  lemma MsgFits(m: Msg)
    ensures FitsAll(MsgItems(m), MsgKinds(m))
  {
    ArmsThere(m.body);
    FitsBehind(U8(TypeCode(m.body)), U16(m.tag), Operands(m.body), Shape(TypeCode(m.body)).value);
  }

  lemma FitsBehind(a: Item, b: Item, xs: seq<Item>, ks: seq<Kind>)
    requires a.U8? && b.U16? && FitsAll(xs, ks)
    ensures FitsAll([a, b] + xs, [KU8, KU16] + ks)
  {
  }

  /** The generic decoder of a record that starts with a given item. */
  lemma DecodeFirst(k: Kind, ks: seq<Kind>, s: seq<u8>)
    ensures var r, q := DecodeAll([k] + ks, s), Decode(k, s);
            if q.Err? then r == Err(q.error)
            else
              var p := DecodeAll(ks, q.value.1);
              if p.Err? then r == Err(p.error) else r == Ok(([q.value.0] + p.value.0, p.value.1))
  {
    assert ([k] + ks)[1..] == ks;
  }

  lemma DecodeByte(s: seq<u8>)
    ensures Decode(KU8, s) == if |s| < 1 then Err(UnexpectedEof) else Ok((U8(Byte(s[..1])), s[1..]))
    ensures Decode(KU16, s) == if |s| < 2 then Err(UnexpectedEof) else Ok((U16(Short(s[..2])), s[2..]))
  {
  }

  lemma DecodeTag(ks: seq<Kind>, t: seq<u8>)
    ensures var r := DecodeAll([KU16] + ks, t);
            if |t| < 2 then r == Err(UnexpectedEof)
            else
              var q := DecodeAll(ks, t[2..]);
              if q.Err? then r == Err(q.error) else r == Ok(([U16(Short(t[..2]))] + q.value.0, q.value.1))
  {
    DecodeFirst(KU16, ks, t);
    DecodeByte(t);
  }

  lemma DecodeCode(ks: seq<Kind>, s: seq<u8>)
    ensures var r := DecodeAll([KU8] + ks, s);
            if |s| < 1 then r == Err(UnexpectedEof)
            else
              var q := DecodeAll(ks, s[1..]);
              if q.Err? then r == Err(q.error) else r == Ok(([U8(Byte(s[..1]))] + q.value.0, q.value.1))
  {
    DecodeFirst(KU8, ks, s);
    DecodeByte(s);
  }

  lemma HeaderItems(a: Item, b: Item, xs: seq<Item>)
    ensures [a] + ([b] + xs) == [a, b] + xs
  {
  }

  /** ... in particular with a byte and a u16. */
  lemma DecodeHeader(ks: seq<Kind>, s: seq<u8>)
    ensures var r := DecodeAll([KU8, KU16] + ks, s);
            if |s| < 3 then r == Err(UnexpectedEof)
            else
              var q := DecodeAll(ks, s[3..]);
              if q.Err? then r == Err(q.error)
              else r == Ok(([U8(Byte(s[..1])), U16(Short(s[1..3]))] + q.value.0, q.value.1))
  {
    assert [KU8, KU16] + ks == [KU8] + ([KU16] + ks);
    DecodeCode([KU16] + ks, s);
    if |s| >= 1 {
      DecodeTag(ks, s[1..]);
    }
    if |s| >= 3 {
      assert s[1..][..2] == s[1..3] && s[1..][2..] == s[3..];
      var q := DecodeAll(ks, s[3..]);
      if q.Ok? {
        HeaderItems(U8(Byte(s[..1])), U16(Short(s[1..3])), q.value.0);
      }
    }
  }

  lemma HeadAndOperands(code: u8, tag: u16, xs: seq<Item>, m: Msg)
    requires [U8(code), U16(tag)] + xs == MsgItems(m)
    ensures code == TypeCode(m.body) && tag == m.tag && xs == Operands(m.body)
  {
    var ys := [U8(code), U16(tag)] + xs;
    assert ys[0] == MsgItems(m)[0] && ys[1] == MsgItems(m)[1];
    assert xs == ys[2..] && Operands(m.body) == MsgItems(m)[2..];
  }

  lemma ReadDecodes(s: seq<u8>, m: Msg, rest: seq<u8>)
    requires Read(s) == Ok((m, rest))
    ensures DecodeAll(MsgKinds(m), s) == Ok((MsgItems(m), rest))
  {
    var code := Byte(s[..1]);
    assert s[1..][..2] == s[1..3] && s[1..][2..] == s[3..];
    ArmsBack(code, DecodeAll(Shape(code).value, s[3..]).value.0);
    DecodeHeader(Shape(TypeCode(m.body)).value, s);
  }

  lemma DecodeReads(s: seq<u8>, m: Msg, rest: seq<u8>)
    requires Shape(TypeCode(m.body)).Some? && DecodeAll(MsgKinds(m), s) == Ok((MsgItems(m), rest))
    ensures Read(s) == Ok((m, rest))
  {
    var ks := Shape(TypeCode(m.body)).value;
    ArmsThere(m.body);
    DecodeHeader(ks, s);
    if |s| >= 3 {
      assert s[1..][..2] == s[1..3] && s[1..][2..] == s[3..];
      var q := DecodeAll(ks, s[3..]);
      HeadAndOperands(Byte(s[..1]), Short(s[1..3]), q.value.0, m);
    }
  }

  /** Reading a message is decoding the record of its items. */
  lemma ReadIsDecode(s: seq<u8>, m: Msg, rest: seq<u8>)
    ensures Shape(TypeCode(m.body)).Some?
    ensures Read(s) == Ok((m, rest)) <==> DecodeAll(MsgKinds(m), s) == Ok((MsgItems(m), rest))
  {
    ArmsThere(m.body);
    if Read(s) == Ok((m, rest)) {
      ReadDecodes(s, m, rest);
    } else if DecodeAll(MsgKinds(m), s) == Ok((MsgItems(m), rest)) {
      DecodeReads(s, m, rest);
    }
  }

  /** Whatever the bytes: `Read` yields `m` and leaves `rest` exactly when `rest` follows an encoding
      of `m`. */
  lemma ReaderIsInverse(s: seq<u8>, m: Msg, rest: seq<u8>)
    ensures FitsAll(MsgItems(m), MsgKinds(m))
    ensures Read(s) == Ok((m, rest)) <==> Consumes(s, MsgItems(m), MsgKinds(m), rest)
  {
    MsgFits(m);
    ReadIsDecode(s, m, rest);
    DecodeIsInverse(s, MsgItems(m), MsgKinds(m), rest);
  }

  /** `s` is an encoding of `xs` followed by `rest`. */
  predicate Consumes(s: seq<u8>, xs: seq<Item>, ks: seq<Kind>, rest: seq<u8>)
    requires |xs| == |ks|
  {
    var n := WireAllLength(xs);
    n <= |s| && rest == s[n..] && EncodesAll(s[..n], xs, ks)
  }

  lemma DecodeIsInverse(s: seq<u8>, xs: seq<Item>, ks: seq<Kind>, rest: seq<u8>)
    requires FitsAll(xs, ks)
    ensures DecodeAll(ks, s) == Ok((xs, rest)) <==> Consumes(s, xs, ks, rest)
  {
    var n := WireAllLength(xs);
    if DecodeAll(ks, s) == Ok((xs, rest)) {
      DecodeAllSound(ks, s);
    }
    if Consumes(s, xs, ks, rest) {
      DecodeAllComplete(s[..n], xs, ks, rest);
      assert s[..n] + s[n..] == s;
    }
  }

  /** A message written and read back, with anything behind it, gives the message and exactly what
      was behind it if and only if every length in it fits its prefix (and a directory listing's
      size is its number of entries). */
  lemma RoundTrip(m: Msg, rest: seq<u8>)
    ensures Read(Write(m) + rest) == Ok((m, rest)) <==> FaithfulAll(MsgItems(m))
  {
    var n := WireAllLength(MsgItems(m));
    ReaderIsInverse(Write(m) + rest, m, rest);
    assert (Write(m) + rest)[..n] == Write(m) && (Write(m) + rest)[n..] == rest;
    WireAllIsEncoding(MsgItems(m), MsgKinds(m));
  }

  /** The code is self-delimiting and injective on such messages. */
  lemma PrefixFree(m: Msg, n: Msg, r: seq<u8>, t: seq<u8>)
    requires FaithfulAll(MsgItems(m)) && FaithfulAll(MsgItems(n))
    requires Write(m) + r == Write(n) + t
    ensures m == n && r == t
  {
    RoundTrip(m, r);
    RoundTrip(n, t);
  }

  // ----- streams -----

  function WriteStream(ms: seq<Msg>): seq<u8> {
    if ms == [] then [] else Write(ms[0]) + WriteStream(ms[1..])
  }

  function ReadStream(n: nat, s: seq<u8>): Result<(seq<Msg>, seq<u8>), Error> {
    if n == 0 then Ok(([], s))
    else
      var (m, t) :- Read(s);
      var (ms, u) :- ReadStream(n - 1, t);
      Ok(([m] + ms, u))
  }

  /** A message that is read back from what was written leaves what was behind it. */
  lemma RestStays(m: Msg, rest: seq<u8>, t: seq<u8>)
    requires Read(Write(m) + rest) == Ok((m, t))
    ensures t == rest
  {
    ReaderIsInverse(Write(m) + rest, m, t);
    assert (Write(m) + rest)[|Write(m)|..] == rest;
  }

  lemma ReadMore(s: seq<u8>, m: Msg, ms: seq<Msg>, rest: seq<u8>)
    ensures ReadStream(|ms| + 1, s) == Ok(([m] + ms, rest))
            <==> Read(s).Ok? && Read(s).value.0 == m && ReadStream(|ms|, Read(s).value.1) == Ok((ms, rest))
  {
    var r := Read(s);
    if r.Ok? {
      var q := ReadStream(|ms|, r.value.1);
      if q.Ok? {
        SameList(r.value.0, q.value.0, m, ms);
      }
    }
  }

  lemma SameList(m: Msg, ms: seq<Msg>, n: Msg, ns: seq<Msg>)
    ensures [m] + ms == [n] + ns <==> m == n && ms == ns
  {
    assert ([m] + ms)[0] == m && ([n] + ns)[0] == n;
    assert ([m] + ms)[1..] == ms && ([n] + ns)[1..] == ns;
  }

  lemma WriteMore(m: Msg, ms: seq<Msg>, rest: seq<u8>)
    ensures WriteStream([m] + ms) + rest == Write(m) + (WriteStream(ms) + rest)
  {
    assert ([m] + ms)[1..] == ms;
  }

  /** Messages written back to back, with anything behind them, are read as exactly that sequence, and
      what is behind them stays, if and only if each of them lies in the domain of the round trip. */
  lemma {:induction false} StreamRoundTrip(ms: seq<Msg>, rest: seq<u8>)
    ensures ReadStream(|ms|, WriteStream(ms) + rest) == Ok((ms, rest))
            <==> forall i | 0 <= i < |ms| :: FaithfulAll(MsgItems(ms[i]))
  {
    if ms == [] {
      assert WriteStream(ms) + rest == rest;
    } else {
      var m, more, t := ms[0], ms[1..], WriteStream(ms[1..]) + rest;
      assert ms == [m] + more;
      WriteMore(m, more, rest);
      ReadMore(Write(m) + t, m, more, rest);
      RoundTrip(m, t);
      StreamRoundTrip(more, rest);
      FirstStays(m, more, rest);
      assert forall i | 1 <= i < |ms| :: ms[i] == more[i - 1];
    }
  }

  lemma FirstStays(m: Msg, more: seq<Msg>, rest: seq<u8>)
    ensures var s, t := Write(m) + (WriteStream(more) + rest), WriteStream(more) + rest;
            Read(s).Ok? && Read(s).value.0 == m <==> Read(s) == Ok((m, t))
  {
    var t := WriteStream(more) + rest;
    var r := Read(Write(m) + t);
    if r.Ok? && r.value.0 == m {
      RestStays(m, t, r.value.1);
    }
  }
}
