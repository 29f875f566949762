// How reading a message fails (serialize.rs): at a stream that ends too soon, at a type code that names no
// message, or at a string that is not UTF-8.
module ReadErrors {
  import opened Wrappers
  import opened Protocol
  import opened Wire
  import opened WireLaws
  import opened Codec
  import opened Messages

  // ----- type codes -----

  /** The codes of the messages. */
  predicate IsCode(c: u8) {
    || 7 <= c <= 9 || 12 <= c <= 27 || 30 <= c <= 33 || 40 <= c <= 41 || 50 <= c <= 55 || 70 <= c <= 77
    || 100 <= c <= 105 || 108 <= c <= 111 || 116 <= c <= 123
  }

  lemma CodesAreKnown(code: u8)
    ensures Shape(code).Some? <==> IsCode(code)
  {
  }

  /** Less than a code and a tag is too short, and behind them an unknown code is an error whatever follows. */
  lemma UnknownCode(s: seq<u8>)
    ensures |s| < 3 ==> Read(s) == Err(UnexpectedEof)
    ensures |s| >= 3 && !IsCode(s[0]) ==> Read(s) == Err(InvalidType)
  {
    if |s| >= 3 {
      assert Byte(s[..1]) == s[0] by {
        assert s[..1] == [s[0]] && [s[0]][1..] == [];
      }
      CodesAreKnown(s[0]);
    }
  }

  // ----- streams that end too soon -----

  lemma CutWord(bs: seq<u8>, x: Item, k: Kind, n: nat)
    requires Fits(x, k) && Encodes(bs, x, k) && n < |bs|
    requires !x.Text? && !x.Blob? && !x.Record? && !x.Vector? && !x.Entries?
    ensures Decode(k, bs[..n]) == Err(UnexpectedEof)
  {
  }

  lemma CutPrefix(bs: seq<u8>, w: nat, n: nat)
    requires w <= n <= |bs|
    ensures bs[..n][..w] == bs[..w] && bs[..n][w..] == bs[w..][..n - w]
  {
  }

  lemma TakeCut(p: seq<u8>, body: seq<u8>, n: nat)
    requires n < |p| + |body|
    ensures n < |p| ==> Take((p + body)[..n], |p|) == Err(UnexpectedEof)
    ensures n >= |p| ==> && Take((p + body)[..n], |p|) == Ok((p, body[..n - |p|]))
                         && Take(body[..n - |p|], |body|) == Err(UnexpectedEof)
  {
    if n >= |p| {
      CutPrefix(p + body, |p|, n);
      assert (p + body)[..|p|] == p && (p + body)[|p|..] == body;
    }
  }

  lemma TextNeeds(s: seq<u8>)
    ensures Take(s, 2).Err? ==> Decode(KText, s) == Err(Take(s, 2).error)
    ensures Take(s, 2).Ok? ==> var (n, t) := Take(s, 2).value;
                               Take(t, Int(n)).Err? ==> Decode(KText, s) == Err(Take(t, Int(n)).error)
  {
  }

  lemma BlobNeeds(s: seq<u8>)
    ensures Take(s, 4).Err? ==> Decode(KBlob, s) == Err(Take(s, 4).error)
    ensures Take(s, 4).Ok? ==> var (n, t) := Take(s, 4).value;
                               Take(t, Int(n)).Err? ==> Decode(KBlob, s) == Err(Take(t, Int(n)).error)
  {
  }

  lemma CutText(s: Str, n: nat)
    requires |s| < 0x1_0000 && n < 2 + |s|
    ensures Decode(KText, (LE(|s|, 2) + s)[..n]) == Err(UnexpectedEof)
  {
    TakeCut(LE(|s|, 2), s, n);
    Limits();
    IntOfLE(|s|, 2);
    TextNeeds((LE(|s|, 2) + s)[..n]);
  }

  lemma CutBlob(d: seq<u8>, n: nat)
    requires |d| < 0x1_0000_0000 && n < 4 + |d|
    ensures Decode(KBlob, (LE(|d|, 4) + d)[..n]) == Err(UnexpectedEof)
  {
    TakeCut(LE(|d|, 4), d, n);
    Limits();
    IntOfLE(|d|, 4);
    BlobNeeds((LE(|d|, 4) + d)[..n]);
  }

  lemma {:induction false} CutItem(bs: seq<u8>, x: Item, k: Kind, n: nat)
    requires Fits(x, k) && Encodes(bs, x, k) && n < |bs|
    ensures Decode(k, bs[..n]) == Err(UnexpectedEof)
    decreases x, 1
  {
    match x
    case Text(s) => CutText(s, n);
    case Blob(d) => CutBlob(d, n);
    case Record(xs) => CutAll(bs, xs, k.fields, n);
    case Vector(xs) =>
      if n >= 2 {
        CutMany(bs[2..], xs, k.elem, n - 2);
        CutPrefix(bs, 2, n);
      }
    case Entries(xs) =>
      if n >= 4 {
        CutMany(bs[4..], xs, k.elem, n - 4);
        CutPrefix(bs, 4, n);
      }
    case _ => CutWord(bs, x, k, n);
  }

  lemma FirstFits(bs: seq<u8>, x: Item, k: Kind, n: nat)
    requires Fits(x, k) && WireLength(x) <= n <= |bs| && Encodes(bs[..WireLength(x)], x, k)
    ensures Decode(k, bs[..n]) == Ok((x, bs[WireLength(x)..][..n - WireLength(x)]))
  {
    var w := WireLength(x);
    DecodeComplete(bs[..w], x, k, bs[w..][..n - w]);
    assert bs[..w] + bs[w..][..n - w] == bs[..n];
  }

  lemma FirstIsCut(bs: seq<u8>, w: nat, n: nat)
    requires n <= w <= |bs|
    ensures bs[..w][..n] == bs[..n]
  {
  }

  lemma {:induction false} CutAll(bs: seq<u8>, xs: seq<Item>, ks: seq<Kind>, n: nat)
    requires FitsAll(xs, ks) && EncodesAll(bs, xs, ks) && n < |bs|
    ensures DecodeAll(ks, bs[..n]) == Err(UnexpectedEof)
    decreases xs, 0
  {
    var w := WireLength(xs[0]);
    if n < w {
      CutItem(bs[..w], xs[0], ks[0], n);
      FirstIsCut(bs, w, n);
    } else {
      FirstFits(bs, xs[0], ks[0], n);
      CutAll(bs[w..], xs[1..], ks[1..], n - w);
    }
  }

  lemma ManyFails(k: Kind, n: nat, s: seq<u8>)
    requires n > 0
    ensures Decode(k, s).Err? ==> DecodeMany(k, n, s) == Err(Decode(k, s).error)
    ensures Decode(k, s).Ok? && DecodeMany(k, n - 1, Decode(k, s).value.1).Err?
            ==> DecodeMany(k, n, s) == Err(DecodeMany(k, n - 1, Decode(k, s).value.1).error)
  {
  }

  lemma ManyHead(bs: seq<u8>, xs: seq<Item>, k: Kind)
    requires EncodesMany(bs, xs, k) && bs != []
    ensures xs != []
    ensures var w := WireLength(xs[0]);
            w <= |bs| && Encodes(bs[..w], xs[0], k) && EncodesMany(bs[w..], xs[1..], k)
  {
  }

  lemma CutLater(bs: seq<u8>, xs: seq<Item>, k: Kind, n: nat)
    requires xs != [] && Fits(xs[0], k) && WireLength(xs[0]) <= n < |bs|
    requires Encodes(bs[..WireLength(xs[0])], xs[0], k)
    requires var w := WireLength(xs[0]);
             DecodeMany(k, |xs| - 1, bs[w..][..n - w]) == Err(UnexpectedEof)
    ensures DecodeMany(k, |xs|, bs[..n]) == Err(UnexpectedEof)
  {
    FirstFits(bs, xs[0], k, n);
    ManyFails(k, |xs|, bs[..n]);
  }

  lemma {:induction false} CutMany(bs: seq<u8>, xs: seq<Item>, k: Kind, n: nat)
    requires (forall i | 0 <= i < |xs| :: Fits(xs[i], k)) && EncodesMany(bs, xs, k) && n < |bs|
    ensures DecodeMany(k, |xs|, bs[..n]) == Err(UnexpectedEof)
    decreases xs, 0
  {
    ManyHead(bs, xs, k);
    var w := WireLength(xs[0]);
    if n < w {
      CutItem(bs[..w], xs[0], k, n);
      FirstIsCut(bs, w, n);
      ManyFails(k, |xs|, bs[..n]);
    } else {
      CutMany(bs[w..], xs[1..], k, n - w);
      CutLater(bs, xs, k, n);
    }
  }

  lemma ReadAsItems(s: seq<u8>, ks: seq<Kind>)
    requires |s| >= 3 && Shape(Byte(s[..1])) == Some(ks)
    ensures DecodeAll([KU8, KU16] + ks, s).Err? ==> Read(s) == Err(DecodeAll([KU8, KU16] + ks, s).error)
  {
    DecodeHeader(ks, s);
    assert s[1..][..2] == s[1..3] && s[1..][2..] == s[3..];
  }

  /** Of any encoding of any message, a proper front part is reported as a stream that ends too soon. */
  lemma CutMessages(s: seq<u8>, m: Msg, n: nat)
    requires Read(s) == Ok((m, [])) && n < |s|
    ensures Read(s[..n]) == Err(UnexpectedEof)
  {
    ReaderIsInverse(s, m, []);
    var xs, ks := MsgItems(m), MsgKinds(m);
    assert s[..WireAllLength(xs)] == s;
    CutAll(s, xs, ks, n);
    if n < 3 {
      UnknownCode(s[..n]);
    } else {
      CodeStays(s, m, n);
      ReadAsItems(s[..n], Shape(TypeCode(m.body)).value);
    }
  }

  lemma CodeStays(s: seq<u8>, m: Msg, n: nat)
    requires Read(s).Ok? && Read(s).value.0 == m && 3 <= n <= |s|
    ensures Byte(s[..n][..1]) == TypeCode(m.body) && Shape(TypeCode(m.body)).Some?
  {
    assert s[..n][..1] == s[..1];
    ArmsBack(Byte(s[..1]), DecodeAll(Shape(Byte(s[..1])).value, s[1..][2..]).value.0);
  }
}
