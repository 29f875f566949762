// The encoder and the decoder of serialize.rs as they run: appending to a writer while counting
// bytes, and advancing a reader.
module CodecIO {
  import opened Wrappers
  import opened Protocol
  import opened Wire
  import opened Codec
  import opened Messages

  /** A growable byte buffer; writing to it does not fail. */
  class Writer {
    var buf: seq<u8>

    constructor ()
      ensures buf == []
    {
      buf := [];
    }

    method WriteAll(bs: seq<u8>)
      modifies this
      ensures buf == old(buf) + bs
    {
      buf := buf + bs;
    }
  }

  /** `Encoder`: a writer and the number of bytes written through this encoder. */
  class Encoder {
    const writer: Writer
    var bytes: nat

    constructor (w: Writer)
      ensures writer == w && bytes == 0
    {
      writer := w;
      bytes := 0;
    }

    /** `Encoder::encode`, also spelled `<<`. */
    method Put(x: Item) returns (n: nat)
      modifies this, writer
      ensures writer.buf == old(writer.buf) + Bytes(x)
      ensures n == |Bytes(x)| && bytes == old(bytes) + n
      decreases x, 2
    {
      n := Encode(x, writer);
      bytes := bytes + n;
    }
  }

  /** The encoders of integers, masks and reserved words. */
  method EncodeWord(v: nat, width: nat, w: Writer) returns (n: nat)
    modifies w
    ensures w.buf == old(w.buf) + LE(v, width) && n == width
  {
    w.WriteAll(LE(v, width));
    n := width;
  }

  /** The encoder of strings. */
  method EncodeText(s: Str, w: Writer) returns (n: nat)
    modifies w
    ensures w.buf == old(w.buf) + Bytes(Text(s)) && n == |Bytes(Text(s))|
  {
    w.WriteAll(LE(|s| % 0x1_0000, 2));
    w.WriteAll(s);
    n := 2 + |s|;
  }

  /** The encoder of `Data`. */
  method EncodeBlob(d: seq<u8>, w: Writer) returns (n: nat)
    modifies w
    ensures w.buf == old(w.buf) + Bytes(Blob(d)) && n == |Bytes(Blob(d))|
  {
    w.WriteAll(LE(|d| % 0x1_0000_0000, 4));
    n := 4 + |d|;
    w.WriteAll(d);
  }

  /** `Encodable::encode`: appends the item and returns the number of bytes appended. A record and a
      vector count through an encoder of their own. */
  method Encode(x: Item, w: Writer) returns (n: nat)
    modifies w
    ensures w.buf == old(w.buf) + Bytes(x)
    ensures n == |Bytes(x)|
    decreases x, 1
  {
    match x
    case U8(v) => n := EncodeWord(v, 1, w);
    case U16(v) => n := EncodeWord(v, 2, w);
    case U32(v) => n := EncodeWord(v, 4, w);
    case U64(v) => n := EncodeWord(v, 8, w);
    case Flags(width, bits) => n := EncodeWord(bits, width, w);
    case Zero => n := EncodeWord(0, 8, w);
    case Text(s) => n := EncodeText(s, w);
    case Blob(d) => n := EncodeBlob(d, w);
    case Record(xs) =>
      n := EncodeChain(x, [], xs, w);
      assert [] + BytesAll(xs) == BytesAll(xs);
    case Vector(xs) => n := EncodeChain(x, LE(|xs| % 0x1_0000, 2), xs, w);
    case Entries(xs) => n := EncodeChain(x, LE(EntriesSize(xs), 4), xs, w);
  }

  /** A chain `Encoder::new(w) << prefix << x0 << x1 ...` over the children of `x`. */
  method EncodeChain(ghost x: Item, prefix: seq<u8>, xs: seq<Item>, w: Writer) returns (n: nat)
    requires forall i | 0 <= i < |xs| :: xs[i] < x
    modifies w
    ensures w.buf == old(w.buf) + (prefix + BytesAll(xs))
    ensures n == |prefix| + |BytesAll(xs)|
    decreases x, 0
  {
    var enc := new Encoder(w);
    w.WriteAll(prefix);
    enc.bytes := |prefix|;
    for i := 0 to |xs|
      invariant enc.writer == w
      invariant w.buf == old(w.buf) + (prefix + BytesAll(xs[..i]))
      invariant enc.bytes == |prefix| + |BytesAll(xs[..i])|
    {
      var _ := enc.Put(xs[i]);
      assert xs[..i + 1] == xs[..i] + [xs[i]];
      BytesAllSnoc(xs[..i], xs[i]);
    }
    assert xs[..|xs|] == xs;
    n := enc.bytes;
  }

  /** `write_msg`: the count returned is the number of bytes appended. */
  method WriteMsg(w: Writer, m: Msg) returns (n: nat)
    modifies w
    ensures w.buf == old(w.buf) + Write(m)
    ensures n == |Write(m)|
  {
    n := EncodeChain(Record(MsgItems(m)), [], MsgItems(m), w);
    assert [] + BytesAll(MsgItems(m)) == Write(m);
  }

  /** A byte stream that is consumed from the front. */
  class Reader {
    var rest: seq<u8>

    constructor (s: seq<u8>)
      ensures rest == s
    {
      rest := s;
    }

    /** `read_exact`. */
    method ReadExact(n: nat) returns (r: Result<seq<u8>, Error>)
      modifies this
      ensures match Take(old(rest), n)
              case Ok((b, t)) => r == Ok(b) && rest == t
              case Err(e) => r == Err(e)
    {
      if n > |rest| {
        rest := [];
        return Err(UnexpectedEof);
      }
      r := Ok(rest[..n]);
      rest := rest[n..];
    }
  }

  /** What was decoded so far in front of what is still to come. */
  function After(got: seq<Item>, r: Result<(seq<Item>, seq<u8>), Error>): Result<(seq<Item>, seq<u8>), Error> {
    match r
    case Ok((xs, t)) => Ok((got + xs, t))
    case Err(e) => Err(e)
  }

  /** `Decodable::decode` for each kind of value. */
  method DecodeItem(k: Kind, r: Reader) returns (x: Result<Item, Error>)
    modifies r
    ensures match Decode(k, old(r.rest))
            case Ok((v, t)) => x == Ok(v) && r.rest == t
            case Err(e) => x == Err(e)
    decreases k, 1, 0
  {
    match k
    case KU8 =>
      var b :- r.ReadExact(1);
      x := Ok(U8(Byte(b)));
    case KU16 =>
      var b :- r.ReadExact(2);
      x := Ok(U16(Short(b)));
    case KU32 =>
      var b :- r.ReadExact(4);
      Limits();
      x := Ok(U32(Int(b)));
    case KU64 =>
      var b :- r.ReadExact(8);
      Limits();
      x := Ok(U64(Int(b)));
    case KFlags(w, bound) =>
      if bound == 0 || !Holds(0, w) {
        return Err(InvalidType);
      }
      var b :- r.ReadExact(w);
      x := Ok(Flags(w, Int(b) % bound));
    case KZero =>
      var _ :- r.ReadExact(8);
      x := Ok(Zero);
    case KText =>
      var n :- r.ReadExact(2);
      var b :- r.ReadExact(Int(n));
      x := if ValidUtf8(b) then Ok(Text(b)) else Err(InvalidUtf8);
    case KBlob =>
      var n :- r.ReadExact(4);
      var b :- r.ReadExact(Int(n));
      x := Ok(Blob(b));
    case KRecord(ks) =>
      var xs :- DecodeFields(k, ks, r);
      x := Ok(Record(xs));
    case KVector(e) =>
      var n :- r.ReadExact(2);
      var xs :- DecodeElems(e, Int(n), r);
      x := Ok(Vector(xs));
    case KEntries(e) =>
      var n :- r.ReadExact(4);
      var xs :- DecodeElems(e, Int(n), r);
      x := Ok(Entries(xs));
  }

  /** The fields of a record, or of a message, one after the other. */
  method DecodeFields(ghost k: Kind, ks: seq<Kind>, r: Reader) returns (xs: Result<seq<Item>, Error>)
    requires forall i | 0 <= i < |ks| :: ks[i] < k
    modifies r
    ensures match DecodeAll(ks, old(r.rest))
            case Ok((v, t)) => xs == Ok(v) && r.rest == t
            case Err(e) => xs == Err(e)
    decreases k, 0, 0
  {
    ghost var all := DecodeAll(ks, r.rest);
    var got: seq<Item> := [];
    Nothing(got, all);
    assert ks[0..] == ks;
    for i := 0 to |ks|
      invariant all == After(got, DecodeAll(ks[i..], r.rest))
    {
      FieldsNext(ks, i, r.rest, got);
      var x :- DecodeItem(ks[i], r);
      got := got + [x];
    }
    Nothing(got, Ok(([], r.rest)));
    xs := Ok(got);
  }

  lemma FieldsNext(ks: seq<Kind>, i: nat, s: seq<u8>, got: seq<Item>)
    requires i < |ks|
    ensures match Decode(ks[i], s)
            case Err(e) => After(got, DecodeAll(ks[i..], s)) == Err(e)
            case Ok((x, t)) => After(got, DecodeAll(ks[i..], s)) == After(got + [x], DecodeAll(ks[i + 1..], t))
  {
    assert ks[i..][1..] == ks[i + 1..];
    match Decode(ks[i], s)
    case Err(_) =>
    case Ok((x, t)) => Gather(got, x, DecodeAll(ks[i + 1..], t));
  }

  lemma ElemsNext(e: Kind, n: nat, s: seq<u8>, got: seq<Item>)
    requires n > 0
    ensures match Decode(e, s)
            case Err(err) => After(got, DecodeMany(e, n, s)) == Err(err)
            case Ok((x, t)) => After(got, DecodeMany(e, n, s)) == After(got + [x], DecodeMany(e, n - 1, t))
  {
    match Decode(e, s)
    case Err(_) =>
    case Ok((x, t)) => Gather(got, x, DecodeMany(e, n - 1, t));
  }

  /** The elements of a counted vector. */
  method DecodeElems(e: Kind, n: nat, r: Reader) returns (xs: Result<seq<Item>, Error>)
    modifies r
    ensures match DecodeMany(e, n, old(r.rest))
            case Ok((v, t)) => xs == Ok(v) && r.rest == t
            case Err(err) => xs == Err(err)
    decreases e, 2, 0
  {
    ghost var all := DecodeMany(e, n, r.rest);
    var got: seq<Item> := [];
    Nothing(got, all);
    for i := 0 to n
      invariant all == After(got, DecodeMany(e, n - i, r.rest))
    {
      ElemsNext(e, n - i, r.rest, got);
      var x :- DecodeItem(e, r);
      got := got + [x];
    }
    Nothing(got, Ok(([], r.rest)));
    xs := Ok(got);
  }

  lemma Nothing(got: seq<Item>, r: Result<(seq<Item>, seq<u8>), Error>)
    ensures got == [] ==> After(got, r) == r
    ensures r.Ok? && r.value.0 == [] ==> After(got, r) == Ok((got, r.value.1))
  {
    if r.Ok? {
      assert [] + r.value.0 == r.value.0 && got + [] == got;
    }
  }

  lemma Gather(got: seq<Item>, x: Item, r: Result<(seq<Item>, seq<u8>), Error>)
    ensures After(got, After([x], r)) == After(got + [x], r)
  {
    if r.Ok? {
      assert got + ([x] + r.value.0) == got + [x] + r.value.0;
    }
  }

  /** `read_msg`. */
  method ReadMsg(r: Reader) returns (m: Result<Msg, Error>)
    modifies r
    ensures match Read(old(r.rest))
            case Ok((v, t)) => m == Ok(v) && r.rest == t
            case Err(e) => m == Err(e)
  {
    var b :- r.ReadExact(1);
    var g :- r.ReadExact(2);
    var shape := Shape(Byte(b));
    if shape.None? {
      return Err(InvalidType);
    }
    var xs :- DecodeFields(KRecord(shape.value), shape.value, r);
    m := Ok(Msg(Short(g), Assemble(Byte(b), xs)));
  }
}
