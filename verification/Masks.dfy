// What truncation keeps of a bit mask, byte for byte.
module Masks {
  import opened Protocol
  import opened Wire

  type Modulus = m: nat | 0 < m <= 0x100 witness 1

  /** For each byte of a mask, the modulus up to which it is kept: 256 where all bits of the byte are
      known, a power of two where the low bits are, and 1 where none is. */
  function KeepMask(bound: nat, w: nat): (ms: seq<Modulus>)
    ensures |ms| == w
  {
    if w == 0 then []
    else if bound >= 0x100 && bound % 0x100 == 0 then [0x100] + KeepMask(bound / 0x100, w - 1)
    else if 0 < bound < 0x100 && 0x100 % bound == 0 then [bound] + seq(w - 1, _ => 1)
    else seq(w, _ => 1)
  }

  predicate Agree(a: u8, b: u8, m: Modulus) {
    a % m == b % m
  }

  /** Equal, byte for byte, up to the moduli. */
  predicate AgreeUpTo(a: seq<u8>, b: seq<u8>, ms: seq<Modulus>) {
    |a| == |b| == |ms| && forall i | 0 <= i < |a| :: Agree(a[i], b[i], ms[i])
  }

  lemma AgreeParts(a: seq<u8>, b: seq<u8>, c: seq<u8>, l: seq<Modulus>, m: seq<Modulus>)
    requires |b| <= |a|
    requires AgreeUpTo(a[..|b|], b, l) && AgreeUpTo(a[|b|..], c, m)
    ensures AgreeUpTo(a, b + c, l + m)
  {
    forall i | 0 <= i < |a| ensures Agree(a[i], (b + c)[i], (l + m)[i]) {
      if i < |b| {
        assert Agree(a[..|b|][i], b[i], l[i]);
      } else {
        assert Agree(a[|b|..][i - |b|], c[i - |b|], m[i - |b|]);
      }
    }
  }

  // ----- remainders -----

  lemma {:induction false} Multiples(m: nat, a: nat, b: nat)
    requires a < b
    ensures m * a + m <= m * b
  {
    if a + 1 < b {
      Multiples(m, a, b - 1);
    }
  }

  lemma Remainder(n: nat, m: nat, q: nat, r: nat)
    requires n == m * q + r && r < m
    ensures n % m == r
  {
    var k := n / m;
    assert n == m * k + n % m;
    if q < k {
      Multiples(m, q, k);
    } else if k < q {
      Multiples(m, k, q);
    }
  }

  lemma SplitMod(lo: nat, hi: nat, c: nat)
    requires lo < 0x100 && c > 0
    ensures (lo + 0x100 * hi) % (0x100 * c) == lo + 0x100 * (hi % c)
  {
    var q, r := hi / c, hi % c;
    assert hi == c * q + r;
    assert (0x100 * c) * q == 0x100 * (c * q);
    Remainder(lo + 0x100 * hi, 0x100 * c, q, lo + 0x100 * r);
  }

  lemma LowMod(lo: nat, hi: nat, bound: nat)
    requires 0 < bound && 0x100 % bound == 0
    ensures (lo + 0x100 * hi) % bound == lo % bound
  {
    var d := 0x100 / bound;
    assert 0x100 == bound * d;
    var q, r := lo / bound, lo % bound;
    assert lo == bound * q + r;
    assert 0x100 * hi == bound * (d * hi) by {
      assert (bound * d) * hi == bound * (d * hi);
    }
    assert bound * q + bound * (d * hi) == bound * (q + d * hi);
    Remainder(lo + 0x100 * hi, bound, q + d * hi, r);
  }

  // ----- truncation -----

  lemma LEOfSum(lo: nat, hi: nat, w: nat)
    requires lo < 0x100 && w > 0
    ensures LE(lo + 0x100 * hi, w) == [lo] + LE(hi, w - 1)
  {
    Remainder(lo + 0x100 * hi, 0x100, hi, lo);
    assert (lo + 0x100 * hi) / 0x100 == hi;
  }

  lemma KeepWhole(c: nat, w: nat)
    requires c > 0 && w > 0
    ensures KeepMask(0x100 * c, w) == [0x100] + KeepMask(c, w - 1)
  {
    Remainder(0x100 * c, 0x100, c, 0);
    assert 0x100 * c / 0x100 == c;
  }

  lemma WholeByteStays(bs: seq<u8>, c: nat)
    requires bs != [] && c > 0
    ensures LE(Int(bs) % (0x100 * c), |bs|) == [bs[0]] + LE(Int(bs[1..]) % c, |bs| - 1)
  {
    assert Int(bs) == bs[0] + 0x100 * Int(bs[1..]);
    SplitMod(bs[0], Int(bs[1..]), c);
    LEOfSum(bs[0], Int(bs[1..]) % c, |bs|);
  }

  lemma WholeByte(bs: seq<u8>, c: nat)
    requires bs != [] && c > 0
    requires AgreeUpTo(bs[1..], LE(Int(bs[1..]) % c, |bs| - 1), KeepMask(c, |bs| - 1))
    ensures AgreeUpTo(bs, LE(Int(bs) % (0x100 * c), |bs|), KeepMask(0x100 * c, |bs|))
  {
    WholeByteStays(bs, c);
    KeepWhole(c, |bs|);
    ConsAgrees(bs, LE(Int(bs[1..]) % c, |bs| - 1), KeepMask(c, |bs| - 1));
  }

  lemma ConsAgrees(bs: seq<u8>, body: seq<u8>, keep: seq<Modulus>)
    requires bs != [] && AgreeUpTo(bs[1..], body, keep)
    ensures AgreeUpTo(bs, [bs[0]] + body, [0x100] + keep)
  {
    forall i | 0 <= i < |bs| ensures Agree(bs[i], ([bs[0]] + body)[i], ([0x100] + keep)[i]) {
      if i > 0 {
        assert Agree(bs[1..][i - 1], body[i - 1], keep[i - 1]);
      }
    }
  }

  lemma LowBits(bs: seq<u8>, bound: nat)
    requires bs != [] && 0 < bound < 0x100 && 0x100 % bound == 0
    ensures AgreeUpTo(bs, LE(Int(bs) % bound, |bs|), KeepMask(bound, |bs|))
  {
    var lo, hi, w := bs[0], Int(bs[1..]), |bs|;
    var b := lo % bound;
    LowMod(lo, hi, bound);
    assert Int(bs) % bound == b;
    Remainder(b, 0x100, 0, b);
    Remainder(b, bound, 0, b);
    var cs := LE(b, w);
    assert cs[0] == b;
    forall i | 0 <= i < w ensures Agree(bs[i], cs[i], KeepMask(bound, w)[i]) {
    }
  }

  /** Truncating a mask changes unknown bits only. */
  lemma {:induction false} MaskKeepsKnownBits(bs: seq<u8>, bound: nat)
    requires bound > 0
    ensures AgreeUpTo(bs, LE(Int(bs) % bound, |bs|), KeepMask(bound, |bs|))
    decreases |bs|
  {
    if bs != [] {
      if bound >= 0x100 && bound % 0x100 == 0 {
        MaskKeepsKnownBits(bs[1..], bound / 0x100);
        WholeByte(bs, bound / 0x100);
        assert 0x100 * (bound / 0x100) == bound;
      } else if 0 < bound < 0x100 && 0x100 % bound == 0 {
        LowBits(bs, bound);
      }
    }
  }

  /** What is kept of the masks of 9P2000.L: every bit of a qid type, the low two bits of the three lock
      masks, fourteen of a getattr mask and nine of a setattr mask. */
  lemma KnownBits()
    ensures KeepMask(QID_TYPE_BITS, 1) == [0x100]
    ensures KeepMask(LOCK_TYPE_BITS, 1) == [4] && KeepMask(LOCK_STATUS_BITS, 1) == [4]
    ensures KeepMask(LOCK_FLAG_BITS, 4) == [4, 1, 1, 1]
    ensures KeepMask(GETATTR_BITS, 8) == [0x100, 0x40, 1, 1, 1, 1, 1, 1]
    ensures KeepMask(SETATTR_BITS, 4) == [0x100, 2, 1, 1]
  {
    assert KeepMask(GETATTR_BITS, 8) == [0x100] + KeepMask(0x40, 7);
    assert KeepMask(SETATTR_BITS, 4) == [0x100] + KeepMask(2, 3);
  }
}
