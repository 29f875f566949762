// What the reader accepts besides the writer's own output, and the Rreaddir size prefix.
module MessageLaws {
  import opened Wrappers
  import opened Protocol
  import opened Wire
  import opened WireLaws
  import opened Codec
  import opened Masks
  import opened Messages

  // ----- every message read can be written and read again -----

  /** No directory listing inside. */
  predicate Plain(k: Kind) {
    match k
    case KRecord(ks) => forall i | 0 <= i < |ks| :: Plain(ks[i])
    case KVector(e) => Plain(e)
    case KEntries(_) => false
    case _ => true
  }

  lemma {:induction false} EncodingsAreFaithful(bs: seq<u8>, x: Item, k: Kind)
    requires Fits(x, k) && Plain(k) && Encodes(bs, x, k)
    ensures Faithful(x)
    decreases x, 1
  {
    match x
    case Record(xs) => AllEncodingsAreFaithful(bs, xs, k.fields);
    case Vector(xs) =>
      Limits();
      ManyEncodingsAreFaithful(bs[2..], xs, k.elem);
    case _ =>
  }

  lemma {:induction false} AllEncodingsAreFaithful(bs: seq<u8>, xs: seq<Item>, ks: seq<Kind>)
    requires FitsAll(xs, ks) && (forall i | 0 <= i < |ks| :: Plain(ks[i])) && EncodesAll(bs, xs, ks)
    ensures FaithfulAll(xs)
    decreases xs, 0
  {
    if xs != [] {
      var n := WireLength(xs[0]);
      EncodingsAreFaithful(bs[..n], xs[0], ks[0]);
      AllEncodingsAreFaithful(bs[n..], xs[1..], ks[1..]);
    }
  }

  lemma {:induction false} ManyEncodingsAreFaithful(bs: seq<u8>, xs: seq<Item>, k: Kind)
    requires (forall i | 0 <= i < |xs| :: Fits(xs[i], k)) && Plain(k) && EncodesMany(bs, xs, k)
    ensures FaithfulAll(xs)
    decreases xs, 0
  {
    if xs != [] {
      var n := WireLength(xs[0]);
      EncodingsAreFaithful(bs[..n], xs[0], k);
      ManyEncodingsAreFaithful(bs[n..], xs[1..], k);
    }
  }

  lemma RecordsArePlain()
    ensures Plain(K_QID) && Plain(K_STATFS) && Plain(K_TIME) && Plain(K_STAT) && Plain(K_SETATTR)
    ensures Plain(K_FLOCK) && Plain(K_GETLOCK)
  {
    assert Plain(K_TIME);
  }

  predicate PlainAll(ks: seq<Kind>) {
    forall i | 0 <= i < |ks| :: Plain(ks[i])
  }

  /** Rreaddir (41) is the only message with a directory listing. */
  lemma ShapesArePlain(code: u8)
    requires Shape(code).Some? && code != 41
    ensures PlainAll(Shape(code).value)
  {
    RecordsArePlain();
  }

  lemma MsgKindsArePlain(m: Msg)
    requires !m.body.Rreaddir?
    ensures FitsAll(MsgItems(m), MsgKinds(m)) && PlainAll(MsgKinds(m))
  {
    MsgFits(m);
    ArmsThere(m.body);
    CodeOfListing(m.body);
    ShapesArePlain(TypeCode(m.body));
    PlainBehind(Shape(TypeCode(m.body)).value);
  }

  lemma PlainBehind(ks: seq<Kind>)
    requires PlainAll(ks)
    ensures PlainAll([KU8, KU16] + ks)
  {
  }

  lemma CodeOfListing(f: Fcall)
    ensures TypeCode(f) == 41 <==> f.Rreaddir?
  {
  }

  /** Whatever bytes are read, the message obtained is one that survives being written and read. */
  lemma ReadMessagesRoundTrip(s: seq<u8>, m: Msg, rest: seq<u8>, more: seq<u8>)
    requires Read(s) == Ok((m, rest)) && !m.body.Rreaddir?
    ensures Read(Write(m) + more) == Ok((m, more))
    ensures |Write(m)| + |rest| == |s|
  {
    MsgKindsArePlain(m);
    ReaderIsInverse(s, m, rest);
    var n := WireAllLength(MsgItems(m));
    AllEncodingsAreFaithful(s[..n], MsgItems(m), MsgKinds(m));
    RoundTrip(m, more);
  }

  // ----- where the bytes read can differ from the bytes written -----

  /** For each byte of an item, the modulus up to which it is kept: 1 in reserved words and in the
      prefix of a directory listing, and 256 outside masks. */
  function Keep(x: Item, k: Kind): (ms: seq<Modulus>)
    requires Fits(x, k)
    ensures |ms| == WireLength(x)
    decreases x, 1
  {
    match k
    case KFlags(w, bound) => KeepMask(bound, w)
    case KZero => seq(8, _ => 1)
    case KRecord(ks) => KeepAll(x.fields, ks)
    case KVector(e) => seq(2, _ => 0x100) + KeepMany(x.elems, e)
    case KEntries(e) => seq(4, _ => 1) + KeepMany(x.entries, e)
    case _ => seq(WireLength(x), _ => 0x100)
  }

  function KeepAll(xs: seq<Item>, ks: seq<Kind>): (ms: seq<Modulus>)
    requires FitsAll(xs, ks)
    ensures |ms| == WireAllLength(xs)
    decreases xs, 0
  {
    if xs == [] then [] else Keep(xs[0], ks[0]) + KeepAll(xs[1..], ks[1..])
  }

  function KeepMany(xs: seq<Item>, k: Kind): (ms: seq<Modulus>)
    requires forall i | 0 <= i < |xs| :: Fits(xs[i], k)
    ensures |ms| == WireAllLength(xs)
    decreases xs, 0
  {
    if xs == [] then [] else Keep(xs[0], k) + KeepMany(xs[1..], k)
  }

  lemma SameBytes(bs: seq<u8>)
    ensures AgreeUpTo(bs, bs, seq(|bs|, _ => 0x100))
  {
  }

  /** Any encoding of an item is what the encoder writes for it, up to unknown bits of masks, reserved
      words and listing prefixes. */
  lemma {:induction false} EncodingsAgree(bs: seq<u8>, x: Item, k: Kind)
    requires Fits(x, k) && Encodes(bs, x, k)
    ensures AgreeUpTo(bs, Bytes(x), Keep(x, k))
    decreases x, 1
  {
    match k
    case KFlags(w, bound) => MaskKeepsKnownBits(bs, bound);
    case KZero =>
    case KRecord(ks) => AllEncodingsAgree(bs, x.fields, ks);
    case KVector(e) =>
      ManyEncodingsAgree(bs[2..], x.elems, e);
      CountAgrees(bs[..2], |x.elems|);
      SameBytes(bs[..2]);
      AgreeParts(bs, bs[..2], BytesAll(x.elems), seq(2, _ => 0x100), KeepMany(x.elems, e));
    case KEntries(e) =>
      ManyEncodingsAgree(bs[4..], x.entries, e);
      AgreeParts(bs, LE(EntriesSize(x.entries), 4), BytesAll(x.entries), seq(4, _ => 1), KeepMany(x.entries, e));
    case _ =>
      LengthsFit(bs, x, k);
      SameBytes(bs);
  }

  lemma LengthsFit(bs: seq<u8>, x: Item, k: Kind)
    requires Fits(x, k) && Encodes(bs, x, k)
    requires !k.KFlags? && !k.KZero? && !k.KRecord? && !k.KVector? && !k.KEntries?
    ensures bs == Bytes(x)
  {
    match x
    case Text(s) => assert |s| % 0x1_0000 == |s|;
    case Blob(d) => assert |d| % 0x1_0000_0000 == |d|;
    case _ =>
  }

  lemma CountAgrees(b: seq<u8>, n: nat)
    requires |b| == 2 && Int(b) == n
    ensures b == LE(n % 0x1_0000, 2)
  {
    Limits();
    Remainder(n, 0x1_0000, 0, n);
    LEOfInt(b);
  }

  lemma {:induction false} AllEncodingsAgree(bs: seq<u8>, xs: seq<Item>, ks: seq<Kind>)
    requires FitsAll(xs, ks) && EncodesAll(bs, xs, ks)
    ensures AgreeUpTo(bs, BytesAll(xs), KeepAll(xs, ks))
    decreases xs, 0
  {
    if xs != [] {
      var n := WireLength(xs[0]);
      EncodingsAgree(bs[..n], xs[0], ks[0]);
      AllEncodingsAgree(bs[n..], xs[1..], ks[1..]);
      AgreeParts(bs, Bytes(xs[0]), BytesAll(xs[1..]), Keep(xs[0], ks[0]), KeepAll(xs[1..], ks[1..]));
    }
  }

  lemma {:induction false} ManyEncodingsAgree(bs: seq<u8>, xs: seq<Item>, k: Kind)
    requires (forall i | 0 <= i < |xs| :: Fits(xs[i], k)) && EncodesMany(bs, xs, k)
    ensures AgreeUpTo(bs, BytesAll(xs), KeepMany(xs, k))
    decreases xs, 0
  {
    if xs != [] {
      var n := WireLength(xs[0]);
      EncodingsAgree(bs[..n], xs[0], k);
      ManyEncodingsAgree(bs[n..], xs[1..], k);
      AgreeParts(bs, Bytes(xs[0]), BytesAll(xs[1..]), Keep(xs[0], k), KeepMany(xs[1..], k));
    }
  }

  /** The bytes a message was read from and the bytes it is written as differ only in unknown bits of
      masks, in reserved words and in the prefix of a directory listing. */
  lemma RewritingIsLocal(s: seq<u8>, m: Msg, rest: seq<u8>)
    requires Read(s) == Ok((m, rest))
    ensures FitsAll(MsgItems(m), MsgKinds(m))
    ensures var n := |Write(m)|;
            n <= |s| && rest == s[n..] && AgreeUpTo(s[..n], Write(m), KeepAll(MsgItems(m), MsgKinds(m)))
  {
    ReaderIsInverse(s, m, rest);
    AllEncodingsAgree(s[..|Write(m)|], MsgItems(m), MsgKinds(m));
  }

  // ----- the directory listing -----

  /** The size that `DirEntryData::size` adds up is the number of entry bytes written, modulo the
      width of the prefix, as 9P2000.L asks of the count in front of a listing. */
  lemma {:induction false} ListingSize(es: seq<DirEntry>)
    ensures EntriesSize(DirEntryItems(es)) == |BytesAll(DirEntryItems(es))| % 0x1_0000_0000
  {
    if es != [] {
      ListingSize(es[..|es| - 1]);
      LastEntry(es);
      AddSizes(|BytesAll(DirEntryItems(es[..|es| - 1]))|, 24 + |es[|es| - 1].name|);
    }
  }

  lemma AddSizes(a: nat, b: nat)
    ensures (a % 0x1_0000_0000 + b % 0x1_0000_0000) % 0x1_0000_0000 == (a + b) % 0x1_0000_0000
  {
  }

  lemma LastEntry(es: seq<DirEntry>)
    requires es != []
    ensures var xs, ys, e := DirEntryItems(es), DirEntryItems(es[..|es| - 1]), es[|es| - 1];
            && xs == ys + [DirEntryItem(e)]
            && |BytesAll(xs)| == |BytesAll(ys)| + 24 + |e.name|
            && EntriesSize(xs) == (EntriesSize(ys) + (24 + |e.name|) % 0x1_0000_0000) % 0x1_0000_0000
  {
    var ys, e := DirEntryItems(es[..|es| - 1]), es[|es| - 1];
    assert DirEntryItems(es) == ys + [DirEntryItem(e)];
    SizeSnoc(ys, DirEntryItem(e));
    EntryLength(e);
  }

  lemma SizeSnoc(ys: seq<Item>, x: Item)
    ensures |BytesAll(ys + [x])| == |BytesAll(ys)| + WireLength(x)
    ensures EntriesSize(ys + [x]) == (EntriesSize(ys) + EntrySize(x)) % 0x1_0000_0000
  {
    BytesAllSnoc(ys, x);
    assert (ys + [x])[..|ys|] == ys;
  }

  lemma EntryLength(e: DirEntry)
    ensures WireLength(DirEntryItem(e)) == 24 + |e.name|
    ensures EntrySize(DirEntryItem(e)) == (24 + |e.name|) % 0x1_0000_0000
  {
    var xs := DirEntryItem(e).fields;
    assert WireLength(QidItem(e.qid)) == 13 by {
      var q := QidItem(e.qid).fields;
      assert WireAllLength(q) == 1 + WireAllLength(q[1..]);
      assert WireAllLength(q[1..]) == 4 + WireAllLength(q[1..][1..]);
      assert q[1..][1..] == q[2..] && WireAllLength(q[2..]) == 8 + WireAllLength(q[2..][1..]);
    }
    assert WireAllLength(xs) == 13 + WireAllLength(xs[1..]);
    assert WireAllLength(xs[1..]) == 8 + WireAllLength(xs[1..][1..]);
    assert xs[1..][1..] == xs[2..] && WireAllLength(xs[2..]) == 1 + WireAllLength(xs[2..][1..]);
    assert xs[2..][1..] == xs[3..] && WireAllLength(xs[3..]) == 2 + |e.name| + WireAllLength(xs[3..][1..]);
  }

  lemma {:induction false} ListingIsLong(es: seq<DirEntry>)
    ensures |BytesAll(DirEntryItems(es))| >= 24 * |es|
  {
    if es != [] {
      ListingIsLong(es[..|es| - 1]);
      LastEntry(es);
    }
  }

  /** Every message starts with its type code and its tag. */
  lemma WriteHeader(m: Msg)
    ensures Write(m) == LE(TypeCode(m.body), 1) + LE(m.tag, 2) + BytesAll(Operands(m.body))
  {
    var c, t := U8(TypeCode(m.body)), U16(m.tag);
    var ops := Operands(m.body);
    assert MsgItems(m) == [c] + ([t] + ops);
    assert ([c] + ([t] + ops))[1..] == [t] + ops && ([t] + ops)[1..] == ops;
    assert BytesAll([c] + ([t] + ops)) == Bytes(c) + BytesAll([t] + ops);
    assert BytesAll([t] + ops) == Bytes(t) + BytesAll(ops);
  }

  lemma FaithfulCons(x: Item, xs: seq<Item>)
    ensures FaithfulAll([x] + xs) <==> Faithful(x) && FaithfulAll(xs)
  {
    assert ([x] + xs)[1..] == xs;
  }

  lemma FaithfulTail(c: Item, t: Item, ops: seq<Item>)
    requires Faithful(c) && Faithful(t)
    ensures FaithfulAll([c, t] + ops) <==> FaithfulAll(ops)
  {
    assert [c, t] + ops == [c] + ([t] + ops);
    FaithfulCons(c, [t] + ops);
    FaithfulCons(t, ops);
  }

  lemma FaithfulHeader(m: Msg)
    ensures FaithfulAll(MsgItems(m)) <==> FaithfulAll(Operands(m.body))
  {
    FaithfulTail(U8(TypeCode(m.body)), U16(m.tag), Operands(m.body));
  }

  lemma OneItem(x: Item)
    ensures BytesAll([x]) == Bytes(x)
    ensures FaithfulAll([x]) <==> Faithful(x)
  {
    assert [x][1..] == [];
  }

  lemma Sections(a: seq<u8>, b: seq<u8>, c: seq<u8>)
    ensures (a + (b + c))[|a|..|a| + |b|] == b && (a + (b + c))[|a| + |b|..] == c
  {
  }

  lemma ListingWire(tag: u16, es: seq<DirEntry>)
    ensures var xs := DirEntryItems(es);
            Write(Msg(tag, Rreaddir(es))) == LE(41, 1) + LE(tag, 2) + (LE(EntriesSize(xs), 4) + BytesAll(xs))
  {
    WriteHeader(Msg(tag, Rreaddir(es)));
    ListingOperands(es);
    OneItem(Entries(DirEntryItems(es)));
    EntriesBytes(DirEntryItems(es));
  }

  lemma ListingOperands(es: seq<DirEntry>)
    ensures Operands(Rreaddir(es)) == [Entries(DirEntryItems(es))] && TypeCode(Rreaddir(es)) == 41
  {
  }

  lemma EntriesBytes(xs: seq<Item>)
    ensures Bytes(Entries(xs)) == LE(EntriesSize(xs), 4) + BytesAll(xs)
  {
  }

  /** A listing whose size fits the prefix is written as: type, tag, the exact number of bytes that
      follow, the entries. */
  lemma ReaddirPrefix(tag: u16, es: seq<DirEntry>, w: seq<u8>)
    requires w == Write(Msg(tag, Rreaddir(es))) && |BytesAll(DirEntryItems(es))| < 0x1_0000_0000
    ensures var body := BytesAll(DirEntryItems(es));
            |w| == 7 + |body| && Int(w[3..7]) == |body| && w[7..] == body
  {
    ListingWire(tag, es);
    ListingSizeFits(es);
    var xs := DirEntryItems(es);
    Sections(LE(41, 1) + LE(tag, 2), LE(EntriesSize(xs), 4), BytesAll(xs));
  }

  lemma ListingSizeFits(es: seq<DirEntry>)
    requires |BytesAll(DirEntryItems(es))| < 0x1_0000_0000
    ensures Int(LE(EntriesSize(DirEntryItems(es)), 4)) == |BytesAll(DirEntryItems(es))|
    ensures EntriesSize(DirEntryItems(es)) == |BytesAll(DirEntryItems(es))| >= 24 * |es|
  {
    ListingSize(es);
    ListingIsLong(es);
    Limits();
    IntOfLE(EntriesSize(DirEntryItems(es)), 4);
  }

  lemma ListingIsFaithful(tag: u16, es: seq<DirEntry>)
    requires |BytesAll(DirEntryItems(es))| < 0x1_0000_0000
    ensures FaithfulAll(MsgItems(Msg(tag, Rreaddir(es)))) <==> es == []
  {
    FaithfulHeader(Msg(tag, Rreaddir(es)));
    OneItem(Entries(DirEntryItems(es)));
    ListingSizeFits(es);
  }

  /** The reader takes that prefix for the number of entries, so it reads the message back exactly
      when the listing is empty. */
  lemma ReaddirRoundTrip(tag: u16, es: seq<DirEntry>, rest: seq<u8>)
    requires |BytesAll(DirEntryItems(es))| < 0x1_0000_0000
    ensures Read(Write(Msg(tag, Rreaddir(es))) + rest) == Ok((Msg(tag, Rreaddir(es)), rest)) <==> es == []
  {
    RoundTrip(Msg(tag, Rreaddir(es)), rest);
    ListingIsFaithful(tag, es);
  }
}
