/** Bytes, and the base64 of section 4 of RFC 4648, which the linked modules and the
    backup envelope's header are written in. */
module Base64 {

  type Byte = b: int | 0 <= b < 256
  type Bytes = seq<Byte>

  function Ascii(s: string): (r: Bytes)
    ensures |r| == |s|
  {
    seq(|s|, i requires 0 <= i < |s| => s[i] as int % 256)
  }

  const PAD: Byte := 61

  /** The alphabet: capitals, small letters, figures, plus and slash. */
  function Digit(n: nat): Byte
    requires n < 64
  {
    if n < 26 then 65 + n
    else if n < 52 then 97 + n - 26
    else if n < 62 then 48 + n - 52
    else if n == 62 then 43
    else 47
  }

  function Value(b: Byte): (n: nat)
    ensures n < 64
  {
    if 65 <= b <= 90 then b - 65
    else if 97 <= b <= 122 then b - 97 + 26
    else if 48 <= b <= 57 then b - 48 + 52
    else if b == 43 then 62
    else if b == 47 then 63
    else 0
  }

  lemma DigitValue(n: nat)
    requires n < 64
    ensures Value(Digit(n)) == n && Digit(n) != PAD
  {
  }

  /** Three bytes as four digits of six bits. */
  function Group(a: Byte, b: Byte, c: Byte): (r: Bytes)
    ensures |r| == 4
  {
    [Digit(a / 4), Digit(a % 4 * 16 + b / 16), Digit(b % 16 * 4 + c / 64), Digit(c % 64)]
  }

  function Encode(t: Bytes): (r: Bytes)
    ensures |r| == (|t| + 2) / 3 * 4
  {
    if t == [] then []
    else if |t| == 1 then Group(t[0], 0, 0)[..2] + [PAD, PAD]
    else if |t| == 2 then Group(t[0], t[1], 0)[..3] + [PAD]
    else Group(t[0], t[1], t[2]) + Encode(t[3..])
  }

  function Byte0(r: Bytes): Byte
    requires |r| == 4
  {
    Value(r[0]) * 4 + Value(r[1]) / 16
  }

  function Byte1(r: Bytes): Byte
    requires |r| == 4
  {
    Value(r[1]) % 16 * 16 + Value(r[2]) / 4
  }

  function Byte2(r: Bytes): Byte
    requires |r| == 4
  {
    Value(r[2]) % 4 * 64 + Value(r[3])
  }

  function Decode(r: Bytes): Bytes {
    if |r| < 4 then []
    else
      var g := r[..4];
      if g[2] == PAD then [Byte0(g)]
      else if g[3] == PAD then [Byte0(g), Byte1(g)]
      else [Byte0(g), Byte1(g), Byte2(g)] + Decode(r[4..])
  }

  lemma SixAndEight(a: Byte, b: Byte, c: Byte)
    ensures a / 4 * 4 + (a % 4 * 16 + b / 16) / 16 == a
    ensures (a % 4 * 16 + b / 16) % 16 * 16 + (b % 16 * 4 + c / 64) / 4 == b
    ensures (b % 16 * 4 + c / 64) % 4 * 64 + c % 64 == c
  {
  }

  /** A group reads back as its three bytes, and holds no padding. */
  lemma GroupBytes(a: Byte, b: Byte, c: Byte)
    ensures var g := Group(a, b, c);
            Byte0(g) == a && Byte1(g) == b && Byte2(g) == c && g[2] != PAD && g[3] != PAD
  {
    DigitValue(a / 4);
    DigitValue(a % 4 * 16 + b / 16);
    DigitValue(b % 16 * 4 + c / 64);
    DigitValue(c % 64);
    SixAndEight(a, b, c);
  }

  /** The leading bytes depend on the leading digits alone. */
  lemma LeadingDigits(r: Bytes, g: Bytes)
    requires |r| == |g| == 4 && r[0] == g[0] && r[1] == g[1]
    ensures Byte0(r) == Byte0(g) && (r[2] == g[2] ==> Byte1(r) == Byte1(g))
  {
  }

  /** A group decodes to the bytes it was made of, padded or not. */
  lemma GroupDecodes(a: Byte, b: Byte, c: Byte, rest: Bytes)
    ensures Decode(Group(a, b, c) + rest) == [a, b, c] + Decode(rest)
    ensures Decode(Group(a, b, 0)[..3] + [PAD]) == [a, b]
    ensures Decode(Group(a, 0, 0)[..2] + [PAD, PAD]) == [a]
  {
    GroupBytes(a, b, c);
    GroupBytes(a, b, 0);
    GroupBytes(a, 0, 0);
    var whole := Group(a, b, c) + rest;
    assert whole[..4] == Group(a, b, c) && whole[4..] == rest;
    var two, one := Group(a, b, 0)[..3] + [PAD], Group(a, 0, 0)[..2] + [PAD, PAD];
    assert two[..4] == two && one[..4] == one;
    LeadingDigits(two, Group(a, b, 0));
    LeadingDigits(one, Group(a, 0, 0));
    hide Group;
    hide Byte0;
    hide Byte1;
    hide Byte2;
  }

  lemma DecodesNothing()
    ensures Decode([]) == []
  {
  }

  /** Decoding what was encoded gives the same bytes back. */
  lemma {:induction false} RoundTrip(t: Bytes)
    ensures Decode(Encode(t)) == t
  {
    hide Decode;
    hide Group;
    if |t| >= 3 {
      GroupDecodes(t[0], t[1], t[2], Encode(t[3..]));
      RoundTrip(t[3..]);
      assert t == [t[0], t[1], t[2]] + t[3..];
    } else if |t| == 2 {
      GroupDecodes(t[0], t[1], 0, []);
      assert t == [t[0], t[1]];
    } else if |t| == 1 {
      GroupDecodes(t[0], 0, 0, []);
      assert t == [t[0]];
    } else {
      DecodesNothing();
    }
  }

  /** The test vectors of section 10 of RFC 4648 fix the alphabet. */
  lemma TestVectors()
    ensures Encode(Ascii("f")) == Ascii("Zg==") && Encode(Ascii("fo")) == Ascii("Zm8=")
    ensures Encode(Ascii("foo")) == Ascii("Zm9v")
  {
    assert Ascii("f") == [102] && Ascii("fo") == [102, 111] && Ascii("foo") == [102, 111, 111];
    assert Ascii("Zg==") == [90, 103, 61, 61] && Ascii("Zm8=") == [90, 109, 56, 61];
    assert Ascii("Zm9v") == [90, 109, 57, 118];
    assert [102, 111, 111][3..] == [];
  }
}
