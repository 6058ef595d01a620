/** The encodings behind PixelDrain's `Authorization` header: UTF-8 (`str.encode()`) and
    the standard base64 alphabet with `=` padding of section 4 of RFC 4648
    (`base64.b64encode`). */
module Base64 {
  import opened PyValues

  /** The UTF-8 bytes of one character (section 3 of RFC 3629). */
  function Utf8Char(c: char): (r: seq<Byte>)
    ensures 1 <= |r| <= 4
    ensures (c as int < 0x80) <==> r == [c as int]
  {
    var v := c as int;
    if v < 0x80 then [v]
    else if v < 0x800 then [0xC0 + v / 0x40, 0x80 + v % 0x40]
    else if v < 0x10000 then [0xE0 + v / 0x1000, 0x80 + (v / 0x40) % 0x40, 0x80 + v % 0x40]
    else [0xF0 + v / 0x40000, 0x80 + (v / 0x1000) % 0x40, 0x80 + (v / 0x40) % 0x40, 0x80 + v % 0x40]
  }

  /** `s.encode()`: the UTF-8 bytes of a string. */
  function Utf8(s: string): seq<Byte> {
    if s == [] then [] else Utf8Char(s[0]) + Utf8(s[1..])
  }

  /** The character for a 6-bit value. */
  function CharOf(v: nat): char
    requires v < 64
  {
    if v < 26 then ('A' as int + v) as char
    else if v < 52 then ('a' as int + v - 26) as char
    else if v < 62 then ('0' as int + v - 52) as char
    else if v == 62 then '+'
    else '/'
  }

  /** The 6-bit value of an alphabet character, or 0 for any other character. */
  function ValueOf(c: char): (v: nat)
    ensures v < 64
  {
    if 'A' <= c <= 'Z' then c as int - 'A' as int
    else if 'a' <= c <= 'z' then c as int - 'a' as int + 26
    else if '0' <= c <= '9' then c as int - '0' as int + 52
    else if c == '+' then 62
    else if c == '/' then 63
    else 0
  }

  /** Three bytes as four characters. */
  function EncodeGroup(b0: Byte, b1: Byte, b2: Byte): string {
    [CharOf(b0 / 4), CharOf(b0 % 4 * 16 + b1 / 16), CharOf(b1 % 16 * 4 + b2 / 64), CharOf(b2 % 64)]
  }

  /** `base64.b64encode(bs)`: groups of three bytes become four characters; a final group of
      one or two bytes is padded with `=`. */
  function Encode(bs: seq<Byte>): (s: string)
    ensures |s| == (|bs| + 2) / 3 * 4
    decreases |bs|
  {
    if |bs| == 0 then []
    else if |bs| == 1 then [CharOf(bs[0] / 4), CharOf(bs[0] % 4 * 16), '=', '=']
    else if |bs| == 2 then
      [CharOf(bs[0] / 4), CharOf(bs[0] % 4 * 16 + bs[1] / 16), CharOf(bs[1] % 16 * 4), '=']
    else EncodeGroup(bs[0], bs[1], bs[2]) + Encode(bs[3..])
  }

  /** The three bytes a group of four characters stands for: the first from the first 6 bits
      and the top 2 of the next 6, and so on. */
  function Byte0(c0: char, c1: char): Byte { ValueOf(c0) * 4 + ValueOf(c1) / 16 }
  function Byte1(c1: char, c2: char): Byte { ValueOf(c1) % 16 * 16 + ValueOf(c2) / 4 }
  function Byte2(c2: char, c3: char): Byte { ValueOf(c2) % 4 * 64 + ValueOf(c3) }

  /** Base64 decoding of well-formed text, group by group. */
  function Decode(s: string): seq<Byte>
    decreases |s|
  {
    if |s| < 4 then []
    else if s[2] == '=' then [Byte0(s[0], s[1])]
    else if s[3] == '=' then [Byte0(s[0], s[1]), Byte1(s[1], s[2])]
    else [Byte0(s[0], s[1]), Byte1(s[1], s[2]), Byte2(s[2], s[3])] + Decode(s[4..])
  }

  lemma ValueOfCharOf(v: nat)
    requires v < 64
    ensures ValueOf(CharOf(v)) == v
    ensures CharOf(v) != '='
  {
  }

  /** The arithmetic of one group: the bytes come back from the four 6-bit values. */
  lemma GroupArithmetic(b0: Byte, b1: Byte, b2: Byte)
    ensures (b0 / 4) * 4 + (b0 % 4 * 16 + b1 / 16) / 16 == b0
    ensures (b0 % 4 * 16 + b1 / 16) % 16 * 16 + (b1 % 16 * 4 + b2 / 64) / 4 == b1
    ensures (b1 % 16 * 4 + b2 / 64) % 4 * 64 + b2 % 64 == b2
  {
  }

  /** Decoding a full group in front of more text decodes the group, then the rest. */
  lemma DecodeFullGroup(b0: Byte, b1: Byte, b2: Byte, rest: string)
    ensures Decode(EncodeGroup(b0, b1, b2) + rest) == [b0, b1, b2] + Decode(rest)
  {
    var g := EncodeGroup(b0, b1, b2);
    ValueOfCharOf(b0 / 4);
    ValueOfCharOf(b0 % 4 * 16 + b1 / 16);
    ValueOfCharOf(b1 % 16 * 4 + b2 / 64);
    ValueOfCharOf(b2 % 64);
    GroupArithmetic(b0, b1, b2);
    var s := g + rest;
    assert s[0] == g[0] && s[1] == g[1] && s[2] == g[2] && s[3] == g[3];
    assert s[4..] == rest;
  }

  /** Decoding the padded group of one byte gives the byte back. */
  lemma DecodeOneByte(b0: Byte)
    ensures Decode(Encode([b0])) == [b0]
  {
    var c0, c1 := CharOf(b0 / 4), CharOf(b0 % 4 * 16);
    assert Encode([b0]) == [c0, c1, '=', '='];
    ValueOfCharOf(b0 / 4);
    ValueOfCharOf(b0 % 4 * 16);
    GroupArithmetic(b0, 0, 0);
  }

  /** Decoding the padded group of two bytes gives the bytes back. */
  lemma DecodeTwoBytes(b0: Byte, b1: Byte)
    ensures Decode(Encode([b0, b1])) == [b0, b1]
  {
    var c0, c1, c2 := CharOf(b0 / 4), CharOf(b0 % 4 * 16 + b1 / 16), CharOf(b1 % 16 * 4);
    assert Encode([b0, b1]) == [c0, c1, c2, '='];
    ValueOfCharOf(b0 / 4);
    ValueOfCharOf(b0 % 4 * 16 + b1 / 16);
    ValueOfCharOf(b1 % 16 * 4);
    GroupArithmetic(b0, b1, 0);
  }

  /** Decoding what was encoded gives back the bytes. */
  lemma {:induction false} RoundTrip(bs: seq<Byte>)
    ensures Decode(Encode(bs)) == bs
    decreases |bs|
  {
    if |bs| == 1 {
      DecodeOneByte(bs[0]);
      assert bs == [bs[0]];
    } else if |bs| == 2 {
      DecodeTwoBytes(bs[0], bs[1]);
      assert bs == [bs[0], bs[1]];
    } else if |bs| >= 3 {
      RoundTrip(bs[3..]);
      RoundTripGroup(bs[0], bs[1], bs[2], bs[3..]);
      assert bs == [bs[0], bs[1], bs[2]] + bs[3..];
    }
  }

  /** A full group in front: if the rest comes back, so does the whole. */
  lemma RoundTripGroup(b0: Byte, b1: Byte, b2: Byte, rest: seq<Byte>)
    requires Decode(Encode(rest)) == rest
    ensures Decode(Encode([b0, b1, b2] + rest)) == [b0, b1, b2] + rest
  {
    var bs := [b0, b1, b2] + rest;
    assert bs[0] == b0 && bs[1] == b1 && bs[2] == b2 && bs[3..] == rest;
    DecodeFullGroup(b0, b1, b2, Encode(rest));
  }

  /** A character of the base64 alphabet. */
  predicate InAlphabet(c: char) {
    'A' <= c <= 'Z' || 'a' <= c <= 'z' || '0' <= c <= '9' || c == '+' || c == '/'
  }

  /** Canonical base64 text: groups of four alphabet characters, where only the last group
      may end in one or two '=', and the bits a padded group does not use are zero. */
  predicate Canonical(s: string)
    decreases |s|
  {
    s == [] ||
    (|s| >= 4 && InAlphabet(s[0]) && InAlphabet(s[1]) &&
     ((|s| == 4 && s[2] == '=' && s[3] == '=' && ValueOf(s[1]) % 16 == 0) ||
      (|s| == 4 && InAlphabet(s[2]) && s[3] == '=' && ValueOf(s[2]) % 4 == 0) ||
      (InAlphabet(s[2]) && InAlphabet(s[3]) && Canonical(s[4..]))))
  }

  lemma CharOfInAlphabet(v: nat)
    requires v < 64
    ensures InAlphabet(CharOf(v))
  {
  }

  lemma CharOfValueOf(c: char)
    requires InAlphabet(c)
    ensures CharOf(ValueOf(c)) == c
  {
  }

  /** Every encoding is canonical. */
  lemma {:induction false} EncodeCanonical(bs: seq<Byte>)
    ensures Canonical(Encode(bs))
    decreases |bs|
  {
    if |bs| == 1 {
      var b0 := bs[0];
      CharOfInAlphabet(b0 / 4);
      CharOfInAlphabet(b0 % 4 * 16);
      ValueOfCharOf(b0 % 4 * 16);
    } else if |bs| == 2 {
      var b0, b1 := bs[0], bs[1];
      CharOfInAlphabet(b0 / 4);
      CharOfInAlphabet(b0 % 4 * 16 + b1 / 16);
      CharOfInAlphabet(b1 % 16 * 4);
      ValueOfCharOf(b1 % 16 * 4);
    } else if |bs| >= 3 {
      var b0, b1, b2 := bs[0], bs[1], bs[2];
      EncodeCanonical(bs[3..]);
      CharOfInAlphabet(b0 / 4);
      CharOfInAlphabet(b0 % 4 * 16 + b1 / 16);
      CharOfInAlphabet(b1 % 16 * 4 + b2 / 64);
      CharOfInAlphabet(b2 % 64);
      var e := Encode(bs);
      assert e == EncodeGroup(b0, b1, b2) + Encode(bs[3..]);
      assert e[4..] == Encode(bs[3..]);
    }
  }

  /** Encoding three bytes in front of more bytes encodes the group, then the rest. */
  lemma EncodeFront(b0: Byte, b1: Byte, b2: Byte, rest: seq<Byte>)
    ensures Encode([b0, b1, b2] + rest) == EncodeGroup(b0, b1, b2) + Encode(rest)
  {
    var bs := [b0, b1, b2] + rest;
    assert bs[0] == b0 && bs[1] == b1 && bs[2] == b2 && bs[3..] == rest;
  }

  /** Decoding a text that starts with four alphabet characters decodes that group first. */
  lemma DecodeFront(s: string)
    requires |s| >= 4 && InAlphabet(s[2]) && InAlphabet(s[3])
    ensures Decode(s) == [Byte0(s[0], s[1]), Byte1(s[1], s[2]), Byte2(s[2], s[3])] + Decode(s[4..])
  {
  }

  /** A value made of high bits `hi` above `lo` (with `lo < m`) gives `hi` back by division;
      `m` is one of the shifts a group uses. */
  lemma HighBits(hi: nat, lo: nat, m: nat)
    requires m == 4 || m == 16 || m == 64
    requires lo < m
    ensures (hi * m + lo) / m == hi
  {
  }

  /** ... and `lo` back by remainder. */
  lemma LowBits(hi: nat, lo: nat, m: nat)
    requires m == 4 || m == 16 || m == 64
    requires lo < m
    ensures (hi * m + lo) % m == lo
  {
  }

  /** A value is its quotient and remainder put back together. */
  lemma Split(v: nat, m: nat)
    requires m == 4 || m == 16
    ensures v / m * m + v % m == v
  {
  }

  /** Each character of a group comes back from the bytes the group decodes to: the first
      from the top 6 bits of the first byte, and so on. */
  lemma FirstCharBack(c0: char, c1: char)
    requires InAlphabet(c0)
    ensures CharOf(Byte0(c0, c1) / 4) == c0
  {
    HighBits(ValueOf(c0), ValueOf(c1) / 16, 4);
    CharOfValueOf(c0);
  }

  lemma SecondCharBack(c0: char, c1: char, c2: char)
    requires InAlphabet(c1)
    ensures CharOf(Byte0(c0, c1) % 4 * 16 + Byte1(c1, c2) / 16) == c1
  {
    LowBits(ValueOf(c0), ValueOf(c1) / 16, 4);
    HighBits(ValueOf(c1) % 16, ValueOf(c2) / 4, 16);
    Split(ValueOf(c1), 16);
    CharOfValueOf(c1);
  }

  lemma ThirdCharBack(c1: char, c2: char, c3: char)
    requires InAlphabet(c2)
    ensures CharOf(Byte1(c1, c2) % 16 * 4 + Byte2(c2, c3) / 64) == c2
  {
    LowBits(ValueOf(c1) % 16, ValueOf(c2) / 4, 16);
    HighBits(ValueOf(c2) % 4, ValueOf(c3), 64);
    Split(ValueOf(c2), 4);
    CharOfValueOf(c2);
  }

  lemma FourthCharBack(c2: char, c3: char)
    requires InAlphabet(c3)
    ensures CharOf(Byte2(c2, c3) % 64) == c3
  {
    LowBits(ValueOf(c2) % 4, ValueOf(c3), 64);
    CharOfValueOf(c3);
  }

  /** The second character of a group padded with "==" comes back when its low 4 bits are zero. */
  lemma SecondCharBackPadded(c0: char, c1: char)
    requires InAlphabet(c1) && ValueOf(c1) % 16 == 0
    ensures CharOf(Byte0(c0, c1) % 4 * 16) == c1
  {
    LowBits(ValueOf(c0), ValueOf(c1) / 16, 4);
    Split(ValueOf(c1), 16);
    CharOfValueOf(c1);
  }

  /** The third character of a group padded with "=" comes back when its low 2 bits are zero. */
  lemma ThirdCharBackPadded(c1: char, c2: char)
    requires InAlphabet(c2) && ValueOf(c2) % 4 == 0
    ensures CharOf(Byte1(c1, c2) % 16 * 4) == c2
  {
    LowBits(ValueOf(c1) % 16, ValueOf(c2) / 4, 16);
    Split(ValueOf(c2), 4);
    CharOfValueOf(c2);
  }

  /** Four alphabet characters come back from the three bytes they decode to. */
  lemma GroupBack(c0: char, c1: char, c2: char, c3: char)
    requires InAlphabet(c0) && InAlphabet(c1) && InAlphabet(c2) && InAlphabet(c3)
    ensures EncodeGroup(Byte0(c0, c1), Byte1(c1, c2), Byte2(c2, c3)) == [c0, c1, c2, c3]
  {
    FirstCharBack(c0, c1);
    SecondCharBack(c0, c1, c2);
    ThirdCharBack(c1, c2, c3);
    FourthCharBack(c2, c3);
  }

  /** A canonical group of four alphabet characters is the encoding of its decoding. */
  lemma FullGroupBack(s: string)
    requires |s| >= 4 && InAlphabet(s[0]) && InAlphabet(s[1]) && InAlphabet(s[2]) && InAlphabet(s[3])
    requires Encode(Decode(s[4..])) == s[4..]
    ensures Encode(Decode(s)) == s
  {
    var c0, c1, c2, c3 := s[0], s[1], s[2], s[3];
    DecodeFront(s);
    EncodeFront(Byte0(c0, c1), Byte1(c1, c2), Byte2(c2, c3), Decode(s[4..]));
    GroupBack(c0, c1, c2, c3);
    assert [c0, c1, c2, c3] + s[4..] == s;
  }

  /** The padded encoding of a last group of one byte. */
  lemma EncodeOne(b0: Byte)
    ensures Encode([b0]) == [CharOf(b0 / 4), CharOf(b0 % 4 * 16), '=', '=']
  {
  }

  /** The padded encoding of a last group of two bytes. */
  lemma EncodeTwo(b0: Byte, b1: Byte)
    ensures Encode([b0, b1]) == [CharOf(b0 / 4), CharOf(b0 % 4 * 16 + b1 / 16), CharOf(b1 % 16 * 4), '=']
  {
  }

  /** A canonical final group with two '=' is the encoding of its one byte. */
  lemma OneByteGroupBack(s: string)
    requires |s| == 4 && InAlphabet(s[0]) && InAlphabet(s[1]) && s[2] == '=' && s[3] == '='
    requires ValueOf(s[1]) % 16 == 0
    ensures Encode(Decode(s)) == s
  {
    var b0 := Byte0(s[0], s[1]);
    assert Decode(s) == [b0];
    FirstCharBack(s[0], s[1]);
    SecondCharBackPadded(s[0], s[1]);
    EncodeOne(b0);
  }

  /** A canonical final group with one '=' is the encoding of its two bytes. */
  lemma TwoByteGroupBack(s: string)
    requires |s| == 4 && InAlphabet(s[0]) && InAlphabet(s[1]) && InAlphabet(s[2]) && s[3] == '='
    requires ValueOf(s[2]) % 4 == 0
    ensures Encode(Decode(s)) == s
  {
    var b0, b1 := Byte0(s[0], s[1]), Byte1(s[1], s[2]);
    assert Decode(s) == [b0, b1];
    FirstCharBack(s[0], s[1]);
    SecondCharBack(s[0], s[1], s[2]);
    ThirdCharBackPadded(s[1], s[2]);
    EncodeTwo(b0, b1);
    assert [CharOf(b0 / 4), CharOf(b0 % 4 * 16 + b1 / 16), CharOf(b1 % 16 * 4), '='] == s;
  }

  /** Canonical text is the encoding of what it decodes to. */
  lemma {:induction false} CanonicalRoundTrip(s: string)
    requires Canonical(s)
    ensures Encode(Decode(s)) == s
    decreases |s|
  {
    if s != [] {
      if |s| == 4 && s[2] == '=' {
        OneByteGroupBack(s);
      } else if |s| == 4 && s[3] == '=' {
        TwoByteGroupBack(s);
      } else {
        CanonicalRoundTrip(s[4..]);
        FullGroupBack(s);
      }
    }
  }

  /** Two canonical texts that decode to the same bytes are the same text. */
  lemma CanonicalUnique(s: string, t: string)
    requires Canonical(s) && Canonical(t) && Decode(s) == Decode(t)
    ensures s == t
  {
    CanonicalRoundTrip(s);
    CanonicalRoundTrip(t);
  }

  /** The UTF-8 bytes of a concatenation are the concatenated bytes. */
  lemma {:induction false} Utf8Append(a: string, b: string)
    ensures Utf8(a + b) == Utf8(a) + Utf8(b)
  {
    if a != [] {
      assert (a + b)[0] == a[0] && (a + b)[1..] == a[1..] + b;
      Utf8Append(a[1..], b);
      calc {
        Utf8(a + b);
        Utf8Char(a[0]) + Utf8(a[1..] + b);
        Utf8Char(a[0]) + (Utf8(a[1..]) + Utf8(b));
        (Utf8Char(a[0]) + Utf8(a[1..])) + Utf8(b);
      }
    } else {
      assert a + b == b;
    }
  }
}
