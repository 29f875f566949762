// Which byte strings are well-formed UTF-8: exactly those that encode a sequence of characters. The
// bytes of a character are given by arithmetic on its code point (section 3.9 of the Unicode Standard,
// Table 3-6).
module Utf8 {
  import opened Wrappers
  import opened Protocol
  import opened Wire
  import Text

  function CharBytes(c: char): seq<u8> {
    var n := c as int;
    if n < 0x80 then [n]
    else if n < 0x800 then [0xc0 + n / 0x40, 0x80 + n % 0x40]
    else if n < 0x1_0000 then [0xe0 + n / 0x1000, 0x80 + n / 0x40 % 0x40, 0x80 + n % 0x40]
    else [0xf0 + n / 0x4_0000, 0x80 + n / 0x1000 % 0x40, 0x80 + n / 0x40 % 0x40, 0x80 + n % 0x40]
  }

  function Encoded(t: string): seq<u8> {
    if t == "" then [] else CharBytes(t[0]) + Encoded(t[1..])
  }

  ghost predicate IsEncoding(s: seq<u8>) {
    exists t: string :: s == Encoded(t)
  }

  /** The bytes of a character are one well-formed sequence. */
  lemma CharIsHead(c: char, rest: seq<u8>)
    ensures Utf8Head(CharBytes(c) + rest) == |CharBytes(c)|
  {
    var n, s := c as int, CharBytes(c) + rest;
    if n < 0x80 {
      assert s[0] == n;
    } else if n < 0x800 {
      assert s[0] == 0xc0 + n / 0x40 && s[1] == 0x80 + n % 0x40;
    } else if n < 0x1_0000 {
      assert s[0] == 0xe0 + n / 0x1000 && s[1] == 0x80 + n / 0x40 % 0x40 && s[2] == 0x80 + n % 0x40;
    } else {
      assert s[0] == 0xf0 + n / 0x4_0000 && s[1] == 0x80 + n / 0x1000 % 0x40;
      assert s[2] == 0x80 + n / 0x40 % 0x40 && s[3] == 0x80 + n % 0x40;
    }
  }

  lemma {:induction false} EncodedIsValid(t: string)
    ensures ValidUtf8(Encoded(t))
  {
    if t != "" {
      var head, rest := CharBytes(t[0]), Encoded(t[1..]);
      CharIsHead(t[0], rest);
      EncodedIsValid(t[1..]);
      assert (head + rest)[|head|..] == rest;
    }
  }

  lemma TwoBytes(s: seq<u8>) returns (c: char)
    requires |s| == 2 && Utf8Head(s) == 2
    ensures CharBytes(c) == s
  {
    var n: int := (s[0] as int - 0xc0) * 0x40 + (s[1] - 0x80);
    c := n as char;
    assert n / 0x40 == s[0] - 0xc0 && n % 0x40 == s[1] - 0x80;
  }

  lemma ThreeBytes(s: seq<u8>) returns (c: char)
    requires |s| == 3 && Utf8Head(s) == 3
    ensures CharBytes(c) == s
  {
    var m := (s[0] as int - 0xe0) * 0x40 + (s[1] - 0x80);
    var n := m * 0x40 + (s[2] - 0x80);
    assert n < 0xd800 || 0xe000 <= n < 0x1_0000;
    c := n as char;
    assert n / 0x40 == m && n % 0x40 == s[2] - 0x80;
    assert n / 0x1000 == s[0] - 0xe0;
  }

  lemma FourBytes(s: seq<u8>) returns (c: char)
    requires |s| == 4 && Utf8Head(s) == 4
    ensures CharBytes(c) == s
  {
    var k := (s[0] as int - 0xf0) * 0x40 + (s[1] - 0x80);
    var m := k * 0x40 + (s[2] - 0x80);
    var n := m * 0x40 + (s[3] - 0x80);
    c := n as char;
    assert n / 0x40 == m && n % 0x40 == s[3] - 0x80;
    assert n / 0x1000 == k && n / 0x4_0000 == s[0] - 0xf0;
  }

  lemma HeadIsChar(s: seq<u8>) returns (c: char)
    requires s != [] && Utf8Head(s) > 0
    ensures CharBytes(c) == s[..Utf8Head(s)]
  {
    var n := Utf8Head(s);
    var h := s[..n];
    assert Utf8Head(h) == n;
    if n == 1 {
      c := s[0] as char;
    } else if n == 2 {
      c := TwoBytes(h);
    } else if n == 3 {
      c := ThreeBytes(h);
    } else {
      c := FourBytes(h);
    }
  }

  lemma {:induction false} ValidIsEncoded(s: seq<u8>) returns (t: string)
    requires ValidUtf8(s)
    ensures Encoded(t) == s
  {
    if s == [] {
      t := "";
    } else {
      var n := Utf8Head(s);
      var c := HeadIsChar(s);
      var rest := ValidIsEncoded(s[n..]);
      t := [c] + rest;
      assert t[1..] == rest && s == s[..n] + s[n..];
    }
  }

  /** The bytes that the codec takes for a string are exactly the encodings of sequences of characters. */
  lemma StringsAreEncodings(s: seq<u8>)
    ensures ValidUtf8(s) <==> IsEncoding(s)
  {
    if ValidUtf8(s) {
      var t := ValidIsEncoded(s);
    }
    if t: string :| s == Encoded(t) {
      EncodedIsValid(t);
    }
  }

  /** The number of bytes that a string on the wire takes, with the two bytes of its length. */
  function TextEnd(s: seq<u8>): nat
    requires |s| >= 2
  {
    2 + s[0] as int + 0x100 * s[1] as int
  }

  lemma LengthPrefix(s: seq<u8>)
    requires |s| >= 2
    ensures 2 + Int(s[..2]) == TextEnd(s)
  {
    var b := s[..2];
    assert b[1..] == [s[1]] && [s[1]][1..] == [];
    assert Int([s[1]]) == s[1] as int + 0x100 * Int([]);
  }

  lemma TakesText(s: seq<u8>)
    requires |s| >= 2
    ensures var n := Int(s[..2]);
            Decode(KText, s)
            == if |s[2..]| < n then Err(UnexpectedEof)
               else if ValidUtf8(s[2..][..n]) then Ok((Text(s[2..][..n]), s[2..][n..]))
               else Err(InvalidUtf8)
  {
  }

  lemma TextAt(s: seq<u8>, n: nat)
    requires 2 + n <= |s|
    ensures s[2..][..n] == s[2..2 + n] && s[2..][n..] == s[2 + n..]
  {
  }

  lemma ReadsText(s: seq<u8>)
    requires 2 <= |s| && TextEnd(s) <= |s|
    ensures var b := s[2..TextEnd(s)];
            Decode(KText, s) == if ValidUtf8(b) then Ok((Text(b), s[TextEnd(s)..])) else Err(InvalidUtf8)
  {
    LengthPrefix(s);
    TakesText(s);
    TextAt(s, Int(s[..2]));
  }

  /** A stream that is too short for the string is an error. */
  lemma ShortStrings(s: seq<u8>)
    ensures |s| < 2 || |s| < TextEnd(s) ==> Decode(KText, s) == Err(UnexpectedEof)
  {
    if |s| >= 2 {
      LengthPrefix(s);
      TakesText(s);
    }
  }

  /** Reading a string: two bytes of length, least significant first, and that many bytes, which are read
      if they encode a sequence of characters and are an error if they do not. */
  lemma ReadsStrings(s: seq<u8>, b: seq<u8>)
    requires 2 <= |s| && TextEnd(s) <= |s| && b == s[2..TextEnd(s)]
    ensures match Decode(KText, s)
            case Ok((x, rest)) => x.Text? && x.text == b && rest == s[TextEnd(s)..] && IsEncoding(b)
            case Err(e) => e == InvalidUtf8 && !IsEncoding(b)
  {
    ReadsText(s);
    if ValidUtf8(b) {
      StringsAreEncodings(b);
    } else {
      NoEncoding(b);
    }
  }

  lemma NoEncoding(b: seq<u8>)
    requires !ValidUtf8(b)
    ensures !IsEncoding(b)
  {
    StringsAreEncodings(b);
  }

  /** The size that is compared elsewhere is the number of these bytes. */
  lemma {:induction false} SizeIsLength(t: string)
    ensures Text.Size(t) == |Encoded(t)|
  {
    if t != "" {
      SizeIsLength(t[1..]);
    }
  }
}
