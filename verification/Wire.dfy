// The byte level of serialize.rs. Every Encodable is a tree of the primitive encodings: integers
// little endian, flags, length-prefixed strings, bytes and vectors, and records, which are chains
// of their fields. `Item` is such a tree with its values, `Kind` is the tree a decoder expects.
module Wire {
  import opened Wrappers
  import opened Protocol

  // ----- little-endian integers -----

  function Limit(w: nat): nat {
    if w == 0 then 1 else 0x100 * Limit(w - 1)
  }

  lemma Limits()
    ensures Limit(1) == 0x100 && Limit(2) == 0x1_0000
    ensures Limit(4) == 0x1_0000_0000 && Limit(8) == 0x1_0000_0000_0000_0000
  {
    assert Limit(4) == 0x100 * Limit(3);
    assert Limit(6) == 0x100 * Limit(5);
    assert Limit(8) == 0x100 * Limit(7);
  }

  /** The low `w` bytes of `n`, least significant first. */
  function LE(n: nat, w: nat): (bs: seq<u8>)
    ensures |bs| == w
  {
    if w == 0 then [] else [n % 0x100] + LE(n / 0x100, w - 1)
  }

  function Int(bs: seq<u8>): (n: nat)
    ensures n < Limit(|bs|)
  {
    if bs == [] then 0 else bs[0] + 0x100 * Int(bs[1..])
  }

  function Byte(b: seq<u8>): u8
    requires |b| == 1
  {
    Limits();
    Int(b)
  }

  function Short(b: seq<u8>): u16
    requires |b| == 2
  {
    Limits();
    Int(b)
  }

  lemma {:induction false} IntOfLE(n: nat, w: nat)
    requires n < Limit(w)
    ensures Int(LE(n, w)) == n
  {
    if w > 0 {
      IntOfLE(n / 0x100, w - 1);
    }
  }

  lemma {:induction false} LEOfInt(bs: seq<u8>)
    ensures LE(Int(bs), |bs|) == bs
  {
    if bs != [] {
      LEOfInt(bs[1..]);
    }
  }

  // ----- items -----

  datatype Item =
    | U8(n8: u8)
    | U16(n16: u16)
    | U32(n32: u32)
    | U64(n64: u64)
    | Flags(width: nat, bits: nat)       // a bit mask stored in `width` bytes
    | Zero                               // a reserved u64
    | Text(text: Str)
    | Blob(blob: seq<u8>)
    | Record(fields: seq<Item>)
    | Vector(elems: seq<Item>)           // Vec<T>: a u16 count and the elements
    | Entries(entries: seq<Item>)        // DirEntryData: a u32 prefix and the entries

  datatype Kind =
    | KU8 | KU16 | KU32 | KU64
    | KFlags(width: nat, bound: nat)     // known bits are those below `bound`
    | KZero
    | KText
    | KBlob
    | KRecord(fields: seq<Kind>)
    | KVector(elem: Kind)
    | KEntries(elem: Kind)

  /** Masks are stored in one, four or eight bytes. */
  predicate Holds(bits: nat, w: nat) {
    (w == 1 && bits < 0x100) || (w == 4 && bits < 0x1_0000_0000) || (w == 8 && bits < 0x1_0000_0000_0000_0000)
  }

  /** The item is a value of that kind. */
  predicate Fits(x: Item, k: Kind) {
    match k
    case KU8 => x.U8?
    case KU16 => x.U16?
    case KU32 => x.U32?
    case KU64 => x.U64?
    case KFlags(w, bound) => x.Flags? && x.width == w && x.bits < bound && Holds(x.bits, w)
    case KZero => x.Zero?
    case KText => x.Text?
    case KBlob => x.Blob?
    case KRecord(ks) => x.Record? && |x.fields| == |ks| && forall i | 0 <= i < |ks| :: Fits(x.fields[i], ks[i])
    case KVector(e) => x.Vector? && forall i | 0 <= i < |x.elems| :: Fits(x.elems[i], e)
    case KEntries(e) => x.Entries? && forall i | 0 <= i < |x.entries| :: Fits(x.entries[i], e)
  }

  predicate FitsAll(xs: seq<Item>, ks: seq<Kind>) {
    |xs| == |ks| && forall i | 0 <= i < |ks| :: Fits(xs[i], ks[i])
  }

  // ----- what the encoders write -----

  /** `DirEntry::size`: qid, offset, type and the length prefix of the name take 24 bytes. */
  function EntrySize(x: Item): nat {
    if x.Record? && |x.fields| == 4 && x.fields[3].Text?
    then (13 + 8 + 1 + 2 + |x.fields[3].text|) % 0x1_0000_0000
    else 0
  }

  /** `DirEntryData::size`: the sizes of the entries, added in u32. */
  function EntriesSize(xs: seq<Item>): (n: nat)
    ensures n < 0x1_0000_0000
  {
    if xs == [] then 0
    else (EntriesSize(xs[..|xs| - 1]) + EntrySize(xs[|xs| - 1])) % 0x1_0000_0000
  }

  function WireLength(x: Item): nat
    decreases x, 1
  {
    match x
    case U8(_) => 1
    case U16(_) => 2
    case U32(_) => 4
    case U64(_) => 8
    case Flags(w, _) => w
    case Zero => 8
    case Text(s) => 2 + |s|
    case Blob(d) => 4 + |d|
    case Record(xs) => WireAllLength(xs)
    case Vector(xs) => 2 + WireAllLength(xs)
    case Entries(xs) => 4 + WireAllLength(xs)
  }

  function WireAllLength(xs: seq<Item>): nat
    decreases xs, 0
  {
    if xs == [] then 0 else WireLength(xs[0]) + WireAllLength(xs[1..])
  }

  /** The bytes written for an item. Lengths are cast to the width of their prefix. */
  function Bytes(x: Item): (bs: seq<u8>)
    ensures |bs| == WireLength(x)
    decreases x, 1
  {
    match x
    case U8(n) => LE(n, 1)
    case U16(n) => LE(n, 2)
    case U32(n) => LE(n, 4)
    case U64(n) => LE(n, 8)
    case Flags(w, b) => LE(b, w)
    case Zero => LE(0, 8)
    case Text(s) => LE(|s| % 0x1_0000, 2) + s
    case Blob(d) => LE(|d| % 0x1_0000_0000, 4) + d
    case Record(xs) => BytesAll(xs)
    case Vector(xs) => LE(|xs| % 0x1_0000, 2) + BytesAll(xs)
    case Entries(xs) => LE(EntriesSize(xs), 4) + BytesAll(xs)
  }

  function BytesAll(xs: seq<Item>): (bs: seq<u8>)
    ensures |bs| == WireAllLength(xs)
    decreases xs, 0
  {
    if xs == [] then [] else Bytes(xs[0]) + BytesAll(xs[1..])
  }

  lemma {:induction false} BytesAllSnoc(xs: seq<Item>, x: Item)
    ensures BytesAll(xs + [x]) == BytesAll(xs) + Bytes(x)
  {
    if xs == [] {
      assert [x][1..] == [];
    } else {
      assert (xs + [x])[1..] == xs[1..] + [x];
      BytesAllSnoc(xs[1..], x);
    }
  }

  // ----- what the decoders accept -----

  datatype Error = UnexpectedEof | InvalidUtf8 | InvalidType

  /** `n` bytes off the front of the stream. */
  function Take(s: seq<u8>, n: nat): Result<(seq<u8>, seq<u8>), Error> {
    if n <= |s| then Ok((s[..n], s[n..])) else Err(UnexpectedEof)
  }

  function Decode(k: Kind, s: seq<u8>): (r: Result<(Item, seq<u8>), Error>)
    ensures r.Ok? ==> Fits(r.value.0, k)
    decreases k, 1, 0
  {
    match k
    case KU8 => var (b, t) :- Take(s, 1); Ok((U8(Byte(b)), t))
    case KU16 => var (b, t) :- Take(s, 2); Ok((U16(Short(b)), t))
    case KU32 => var (b, t) :- Take(s, 4); Limits(); Ok((U32(Int(b)), t))
    case KU64 => var (b, t) :- Take(s, 8); Limits(); Ok((U64(Int(b)), t))
    case KFlags(w, bound) =>
      if 0 < bound && Holds(0, w) then
        var (b, t) :- Take(s, w);
        Limits();
        assert Int(b) % bound <= Int(b);
        Ok((Flags(w, Int(b) % bound), t))
      else Err(InvalidType)
    case KZero => var (b, t) :- Take(s, 8); Ok((Zero, t))
    case KText =>
      var (n, t) :- Take(s, 2);
      var (b, u) :- Take(t, Int(n));
      if ValidUtf8(b) then Ok((Text(b), u)) else Err(InvalidUtf8)
    case KBlob =>
      var (n, t) :- Take(s, 4);
      var (b, u) :- Take(t, Int(n));
      Ok((Blob(b), u))
    case KRecord(ks) =>
      var (xs, t) :- DecodeAll(ks, s);
      Ok((Record(xs), t))
    case KVector(e) =>
      var (n, t) :- Take(s, 2);
      var (xs, u) :- DecodeMany(e, Int(n), t);
      Ok((Vector(xs), u))
    case KEntries(e) =>
      var (n, t) :- Take(s, 4);
      var (xs, u) :- DecodeMany(e, Int(n), t);
      Ok((Entries(xs), u))
  }

  function DecodeAll(ks: seq<Kind>, s: seq<u8>): (r: Result<(seq<Item>, seq<u8>), Error>)
    ensures r.Ok? ==> FitsAll(r.value.0, ks)
    decreases ks, 0, 0
  {
    if ks == [] then Ok(([], s))
    else
      var (x, t) :- Decode(ks[0], s);
      var (xs, u) :- DecodeAll(ks[1..], t);
      Ok(([x] + xs, u))
  }

  function DecodeMany(k: Kind, n: nat, s: seq<u8>): (r: Result<(seq<Item>, seq<u8>), Error>)
    ensures r.Ok? ==> |r.value.0| == n && forall i | 0 <= i < n :: Fits(r.value.0[i], k)
    decreases k, 2, n
  {
    if n == 0 then Ok(([], s))
    else
      var (x, t) :- Decode(k, s);
      var (xs, u) :- DecodeMany(k, n - 1, t);
      Ok(([x] + xs, u))
  }

  // ----- the encodings of an item, as a relation -----

  /** `bs` is an encoding of `x` for the decoders: the unknown bits of a mask and the reserved
      words are free, the prefix of a directory listing is its number of entries, and everything
      else is what the encoders write for lengths their prefix can hold. */
  predicate Encodes(bs: seq<u8>, x: Item, k: Kind)
    decreases x, 1
  {
    match x
    case Flags(w, b) => k.KFlags? && |bs| == w && k.bound > 0 && Int(bs) % k.bound == b
    case Zero => |bs| == 8
    case Text(s) => |s| < 0x1_0000 && bs == LE(|s|, 2) + s
    case Blob(d) => |d| < 0x1_0000_0000 && bs == LE(|d|, 4) + d
    case Record(xs) => k.KRecord? && |xs| == |k.fields| && EncodesAll(bs, xs, k.fields)
    case Vector(xs) =>
      k.KVector? && |bs| >= 2 && Int(bs[..2]) == |xs| && EncodesMany(bs[2..], xs, k.elem)
    case Entries(xs) =>
      k.KEntries? && |bs| >= 4 && Int(bs[..4]) == |xs| && EncodesMany(bs[4..], xs, k.elem)
    case _ => bs == Bytes(x)
  }

  predicate EncodesAll(bs: seq<u8>, xs: seq<Item>, ks: seq<Kind>)
    requires |xs| == |ks|
    decreases xs, 0
  {
    if xs == [] then bs == []
    else
      var n := WireLength(xs[0]);
      n <= |bs| && Encodes(bs[..n], xs[0], ks[0]) && EncodesAll(bs[n..], xs[1..], ks[1..])
  }

  predicate EncodesMany(bs: seq<u8>, xs: seq<Item>, k: Kind)
    decreases xs, 0
  {
    if xs == [] then bs == []
    else
      var n := WireLength(xs[0]);
      n <= |bs| && Encodes(bs[..n], xs[0], k) && EncodesMany(bs[n..], xs[1..], k)
  }
}
