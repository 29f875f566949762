// The decoders accept exactly the encodings of an item, and what the encoders write is one of
// them exactly when every length fits its prefix.
module WireLaws {
  import opened Wrappers
  import opened Protocol
  import opened Wire

  lemma Split2(s: seq<u8>, a: nat, b: nat)
    requires a <= b <= |s|
    ensures s[..b][..a] == s[..a]
    ensures s[..b][a..] == s[a..][..b - a]
    ensures s[a..][b - a..] == s[b..]
  {
  }

  // ----- soundness -----

  /** A successful decoder consumes a prefix that encodes its result. */
  lemma {:induction false} DecodeSound(k: Kind, s: seq<u8>)
    requires Decode(k, s).Ok?
    ensures var (x, t) := Decode(k, s).value;
            var n := WireLength(x);
            n <= |s| && t == s[n..] && Encodes(s[..n], x, k)
    decreases k, 1, 0
  {
    var (x, t) := Decode(k, s).value;
    match k
    case KRecord(ks) => DecodeAllSound(ks, s);
    case KVector(e) =>
      DecodeManySound(e, Int(s[..2]), s[2..]);
      VectorSound(e, s);
    case KEntries(e) =>
      DecodeManySound(e, Int(s[..4]), s[4..]);
      EntriesSound(e, s);
    case KText => TextSound(s);
    case KBlob => BlobSound(s);
    case KFlags(_, _) =>
    case _ => WordSound(k, s);
  }

  /** The elements are a sound reading of what follows the count. */
  predicate ManySound(k: Kind, n: nat, s: seq<u8>) {
    DecodeMany(k, n, s).Ok? &&
    var (xs, t) := DecodeMany(k, n, s).value;
    var m := WireAllLength(xs);
    m <= |s| && t == s[m..] && EncodesMany(s[..m], xs, k)
  }

  lemma VectorSound(e: Kind, s: seq<u8>)
    requires Decode(KVector(e), s).Ok? && ManySound(e, Int(s[..2]), s[2..])
    ensures var (x, t) := Decode(KVector(e), s).value;
            var n := WireLength(x);
            n <= |s| && t == s[n..] && Encodes(s[..n], x, KVector(e))
  {
    Split2(s, 2, WireLength(Decode(KVector(e), s).value.0));
  }

  /** A count and then as many encoded entries. */
  lemma EntriesEncode(e: Kind, s: seq<u8>, xs: seq<Item>)
    requires |s| >= 4 && Int(s[..4]) == |xs|
    requires 4 + WireAllLength(xs) <= |s| && EncodesMany(s[4..][..WireAllLength(xs)], xs, e)
    ensures Encodes(s[..4 + WireAllLength(xs)], Entries(xs), KEntries(e))
  {
    Split2(s, 4, 4 + WireAllLength(xs));
  }

  lemma EntriesSound(e: Kind, s: seq<u8>)
    requires Decode(KEntries(e), s).Ok? && ManySound(e, Int(s[..4]), s[4..])
    ensures var (x, t) := Decode(KEntries(e), s).value;
            var n := WireLength(x);
            n <= |s| && t == s[n..] && Encodes(s[..n], x, KEntries(e))
  {
    EntriesEncode(e, s, Decode(KEntries(e), s).value.0.entries);
  }

  lemma WordSound(k: Kind, s: seq<u8>)
    requires k.KU8? || k.KU16? || k.KU32? || k.KU64? || k.KZero?
    requires Decode(k, s).Ok?
    ensures var (x, t) := Decode(k, s).value;
            var n := WireLength(x);
            n <= |s| && t == s[n..] && Encodes(s[..n], x, k)
  {
    LEOfInt(s[..WireLength(Decode(k, s).value.0)]);
  }

  lemma TextSound(s: seq<u8>)
    requires Decode(KText, s).Ok?
    ensures var (x, t) := Decode(KText, s).value;
            var n := WireLength(x);
            n <= |s| && t == s[n..] && Encodes(s[..n], x, KText)
  {
    Prefixed(s, 2, |Decode(KText, s).value.0.text|);
    Limits();
  }

  lemma BlobSound(s: seq<u8>)
    requires Decode(KBlob, s).Ok?
    ensures var (x, t) := Decode(KBlob, s).value;
            var n := WireLength(x);
            n <= |s| && t == s[n..] && Encodes(s[..n], x, KBlob)
  {
    Prefixed(s, 4, |Decode(KBlob, s).value.0.blob|);
    Limits();
  }

  /** A length prefix followed by that many bytes. */
  lemma Prefixed(s: seq<u8>, w: nat, n: nat)
    requires w + n <= |s| && Int(s[..w]) == n
    ensures s[..w + n] == LE(n, w) + s[w..][..n] && n < Limit(w)
    ensures s[w..][n..] == s[w + n..]
  {
    LEOfInt(s[..w]);
    assert |s[..w]| == w;
    assert s[..w + n] == s[..w] + s[w..][..n];
  }

  lemma ConsEncodesAll(s: seq<u8>, x: Item, xs: seq<Item>, ks: seq<Kind>)
    requires |ks| == 1 + |xs|
    requires WireLength(x) + WireAllLength(xs) <= |s|
    requires Encodes(s[..WireLength(x)], x, ks[0])
    requires EncodesAll(s[WireLength(x)..][..WireAllLength(xs)], xs, ks[1..])
    ensures var n := WireAllLength([x] + xs);
            n == WireLength(x) + WireAllLength(xs) && EncodesAll(s[..n], [x] + xs, ks)
            && s[WireLength(x)..][WireAllLength(xs)..] == s[n..]
  {
    Cons(x, xs);
    var ys, a, n := [x] + xs, WireLength(x), WireLength(x) + WireAllLength(xs);
    Split2(s, a, n);
    assert ys[0] == x && ys[1..] == xs && WireAllLength(ys) == n;
    assert EncodesAll(s[..n], ys, ks) by {
      assert s[..n][..a] == s[..a] && s[..n][a..] == s[a..][..n - a];
    }
  }

  lemma ConsEncodesMany(s: seq<u8>, x: Item, xs: seq<Item>, k: Kind)
    requires WireLength(x) + WireAllLength(xs) <= |s|
    requires Encodes(s[..WireLength(x)], x, k)
    requires EncodesMany(s[WireLength(x)..][..WireAllLength(xs)], xs, k)
    ensures var n := WireAllLength([x] + xs);
            n == WireLength(x) + WireAllLength(xs) && EncodesMany(s[..n], [x] + xs, k)
            && s[WireLength(x)..][WireAllLength(xs)..] == s[n..]
  {
    Cons(x, xs);
    Split2(s, WireLength(x), WireLength(x) + WireAllLength(xs));
  }

  lemma {:induction false} DecodeAllSound(ks: seq<Kind>, s: seq<u8>)
    requires DecodeAll(ks, s).Ok?
    ensures var (xs, t) := DecodeAll(ks, s).value;
            var n := WireAllLength(xs);
            n <= |s| && t == s[n..] && EncodesAll(s[..n], xs, ks)
    decreases ks, 0, 0
  {
    if ks != [] {
      var (x, t) := Decode(ks[0], s).value;
      var (xs, u) := DecodeAll(ks[1..], t).value;
      DecodeSound(ks[0], s);
      DecodeAllSound(ks[1..], t);
      ConsEncodesAll(s, x, xs, ks);
    }
  }

  lemma {:induction false} DecodeManySound(k: Kind, n: nat, s: seq<u8>)
    requires DecodeMany(k, n, s).Ok?
    ensures var (xs, t) := DecodeMany(k, n, s).value;
            var m := WireAllLength(xs);
            m <= |s| && t == s[m..] && EncodesMany(s[..m], xs, k)
    decreases k, 2, n
  {
    if n > 0 {
      var (x, t) := Decode(k, s).value;
      var (xs, u) := DecodeMany(k, n - 1, t).value;
      DecodeSound(k, s);
      DecodeManySound(k, n - 1, t);
      ConsEncodesMany(s, x, xs, k);
    }
  }

  // ----- completeness -----

  lemma TakeFront(a: seq<u8>, rest: seq<u8>)
    ensures Take(a + rest, |a|) == Ok((a, rest))
  {
  }

  /** Every encoding of an item is decoded to that item, whatever follows it. */
  lemma {:induction false} DecodeComplete(bs: seq<u8>, x: Item, k: Kind, rest: seq<u8>)
    requires Fits(x, k) && Encodes(bs, x, k)
    ensures |bs| == WireLength(x)
    ensures Decode(k, bs + rest) == Ok((x, rest))
    decreases x, 1
  {
    Limits();
    match x
    case U8(n) => IntOfLE(n, 1); TakeFront(bs, rest);
    case U16(n) => IntOfLE(n, 2); TakeFront(bs, rest);
    case U32(n) => IntOfLE(n, 4); TakeFront(bs, rest);
    case U64(n) => IntOfLE(n, 8); TakeFront(bs, rest);
    case Flags(w, b) => TakeFront(bs, rest);
    case Zero => TakeFront(bs, rest);
    case Text(t) => TakePrefixed(LE(|t|, 2), t, rest); IntOfLE(|t|, 2);
    case Blob(d) => TakePrefixed(LE(|d|, 4), d, rest); IntOfLE(|d|, 4);
    case Record(xs) => DecodeAllComplete(bs, xs, k.fields, rest);
    case Vector(xs) =>
      assert bs[..2] + bs[2..] == bs;
      TakePrefixed(bs[..2], bs[2..], rest);
      DecodeManyComplete(bs[2..], xs, k.elem, rest);
    case Entries(xs) =>
      assert bs[..4] + bs[4..] == bs;
      TakePrefixed(bs[..4], bs[4..], rest);
      DecodeManyComplete(bs[4..], xs, k.elem, rest);
  }

  lemma TakePrefixed(p: seq<u8>, body: seq<u8>, rest: seq<u8>)
    ensures Take(p + body + rest, |p|) == Ok((p, body + rest))
    ensures Take(body + rest, |body|) == Ok((body, rest))
  {
    assert p + body + rest == p + (body + rest);
    TakeFront(p, body + rest);
    TakeFront(body, rest);
  }

  lemma Cut(bs: seq<u8>, n: nat, rest: seq<u8>)
    requires n <= |bs|
    ensures bs + rest == bs[..n] + (bs[n..] + rest)
  {
  }

  lemma Cons(x: Item, xs: seq<Item>)
    ensures ([x] + xs)[0] == x && ([x] + xs)[1..] == xs
  {
  }

  lemma HeadTail(xs: seq<Item>)
    requires xs != []
    ensures [xs[0]] + xs[1..] == xs
  {
  }

  lemma {:induction false} DecodeAllComplete(bs: seq<u8>, xs: seq<Item>, ks: seq<Kind>, rest: seq<u8>)
    requires FitsAll(xs, ks) && EncodesAll(bs, xs, ks)
    ensures |bs| == WireAllLength(xs)
    ensures DecodeAll(ks, bs + rest) == Ok((xs, rest))
    decreases xs, 0
  {
    if xs == [] {
      assert bs + rest == rest;
    } else {
      var n := WireLength(xs[0]);
      Cut(bs, n, rest);
      DecodeComplete(bs[..n], xs[0], ks[0], bs[n..] + rest);
      DecodeAllComplete(bs[n..], xs[1..], ks[1..], rest);
      HeadTail(xs);
    }
  }

  lemma {:induction false} DecodeManyComplete(bs: seq<u8>, xs: seq<Item>, k: Kind, rest: seq<u8>)
    requires (forall i | 0 <= i < |xs| :: Fits(xs[i], k)) && EncodesMany(bs, xs, k)
    ensures |bs| == WireAllLength(xs)
    ensures DecodeMany(k, |xs|, bs + rest) == Ok((xs, rest))
    decreases xs, 0
  {
    if xs == [] {
      assert bs + rest == rest;
    } else {
      var n := WireLength(xs[0]);
      Cut(bs, n, rest);
      DecodeComplete(bs[..n], xs[0], k, bs[n..] + rest);
      DecodeManyComplete(bs[n..], xs[1..], k, rest);
      HeadTail(xs);
    }
  }

  // ----- when the encoders' output is an encoding -----

  /** Every length fits its prefix. For a directory listing the prefix has to be the number of
      entries for the decoder, and the encoder writes their size. */
  predicate Faithful(x: Item)
    decreases x, 1
  {
    match x
    case Text(s) => |s| < 0x1_0000
    case Blob(d) => |d| < 0x1_0000_0000
    case Record(xs) => FaithfulAll(xs)
    case Vector(xs) => |xs| < 0x1_0000 && FaithfulAll(xs)
    case Entries(xs) => EntriesSize(xs) == |xs| && FaithfulAll(xs)
    case _ => true
  }

  predicate FaithfulAll(xs: seq<Item>)
    decreases xs, 0
  {
    xs == [] || (Faithful(xs[0]) && FaithfulAll(xs[1..]))
  }

  lemma {:induction false} WireIsEncoding(x: Item, k: Kind)
    requires Fits(x, k)
    ensures Encodes(Bytes(x), x, k) <==> Faithful(x)
    decreases x, 1
  {
    match x
    case Flags(w, b) => FlagsAreEncoding(b, w, k.bound);
    case Text(s) => TextIsEncoding(s);
    case Blob(d) => BlobIsEncoding(d);
    case Record(xs) => WireAllIsEncoding(xs, k.fields);
    case Vector(xs) =>
      WireManyIsEncoding(xs, k.elem);
      VectorIsEncoding(xs, k.elem);
    case Entries(xs) =>
      WireManyIsEncoding(xs, k.elem);
      EntriesAreEncoding(xs, k.elem);
    case _ =>
  }

  lemma Below(n: nat, m: nat)
    requires n < m
    ensures n % m == n
  {
  }

  lemma FlagsAreEncoding(b: nat, w: nat, bound: nat)
    requires Fits(Flags(w, b), KFlags(w, bound))
    ensures Encodes(Bytes(Flags(w, b)), Flags(w, b), KFlags(w, bound))
  {
    Limits();
    IntOfLE(b, w);
    Below(b, bound);
  }

  lemma TextIsEncoding(s: Str)
    ensures Encodes(Bytes(Text(s)), Text(s), KText) <==> |s| < 0x1_0000
  {
    ShortCount(|s|);
  }

  lemma BlobIsEncoding(d: seq<u8>)
    ensures Encodes(Bytes(Blob(d)), Blob(d), KBlob) <==> |d| < 0x1_0000_0000
  {
    if |d| < 0x1_0000_0000 {
      assert |d| % 0x1_0000_0000 == |d|;
    }
  }

  lemma VectorIsEncoding(xs: seq<Item>, e: Kind)
    requires EncodesMany(BytesAll(xs), xs, e) <==> FaithfulAll(xs)
    ensures Encodes(Bytes(Vector(xs)), Vector(xs), KVector(e)) <==> Faithful(Vector(xs))
  {
    ShortCount(|xs|);
    PrefixRead(|xs| % 0x1_0000, 2, BytesAll(xs));
  }

  lemma EntriesAreEncoding(xs: seq<Item>, e: Kind)
    requires EncodesMany(BytesAll(xs), xs, e) <==> FaithfulAll(xs)
    ensures Encodes(Bytes(Entries(xs)), Entries(xs), KEntries(e)) <==> Faithful(Entries(xs))
  {
    Limits();
    PrefixRead(EntriesSize(xs), 4, BytesAll(xs));
  }

  /** A count survives the cast to u16 exactly when it is one. */
  lemma ShortCount(n: nat)
    ensures n % 0x1_0000 == n <==> n < 0x1_0000
    ensures n % 0x1_0000 < Limit(2)
  {
    Limits();
  }

  lemma PrefixRead(n: nat, w: nat, body: seq<u8>)
    requires n < Limit(w)
    ensures Int((LE(n, w) + body)[..w]) == n && (LE(n, w) + body)[w..] == body
  {
    IntOfLE(n, w);
    Front(LE(n, w), body);
  }

  lemma Front(a: seq<u8>, b: seq<u8>)
    ensures (a + b)[..|a|] == a && (a + b)[|a|..] == b
  {
  }

  lemma {:induction false} WireAllIsEncoding(xs: seq<Item>, ks: seq<Kind>)
    requires FitsAll(xs, ks)
    ensures EncodesAll(BytesAll(xs), xs, ks) <==> FaithfulAll(xs)
    decreases xs, 0
  {
    if xs != [] {
      WireIsEncoding(xs[0], ks[0]);
      WireAllIsEncoding(xs[1..], ks[1..]);
      Front(Bytes(xs[0]), BytesAll(xs[1..]));
    }
  }

  lemma {:induction false} WireManyIsEncoding(xs: seq<Item>, k: Kind)
    requires forall i | 0 <= i < |xs| :: Fits(xs[i], k)
    ensures EncodesMany(BytesAll(xs), xs, k) <==> FaithfulAll(xs)
    decreases xs, 0
  {
    if xs != [] {
      WireIsEncoding(xs[0], k);
      WireManyIsEncoding(xs[1..], k);
      Front(Bytes(xs[0]), BytesAll(xs[1..]));
    }
  }
}
