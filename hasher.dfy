/**
 * The login proof of the challenge-response handshake: the text
 * `challenge-secret` is encoded as UTF-16 (section 2.1 of RFC 2781), every
 * code unit above 255 is replaced by 0x2E ("."), each unit is written as two
 * little-endian bytes, the bytes are hashed with MD5 (RFC 1321) and the proof
 * is `challenge-` followed by the digest in lowercase hex. The digest
 * function is a parameter: only what is done around it is modelled.
 */
module Hasher {

  newtype byte = b: int | 0 <= b < 256

  /** A UTF-16 code unit. */
  type CodeUnit = u: int | 0 <= u < 0x1_0000

  type Digest = d: seq<byte> | |d| == 16 witness [0, 0, 0, 0, 0, 0, 0, 0, 0, 0, 0, 0, 0, 0, 0, 0]

  /** The hash the proof is built on (MD5 in the gateway's protocol). */
  type Md5 = seq<byte> -> Digest

  const Dot: CodeUnit := 0x2E

  /** utf16.Encode of one scalar value: itself below U+10000, otherwise a high and a low surrogate. */
  function EncodeRune(c: char): (us: seq<CodeUnit>)
    ensures c as int < 0x1_0000 ==> us == [c as int]
    ensures c as int >= 0x1_0000 ==>
      && |us| == 2
      && 0xD800 <= us[0] < 0xDC00 && 0xDC00 <= us[1] < 0xE000
      && (us[0] as int - 0xD800) * 0x400 + (us[1] as int - 0xDC00) + 0x1_0000 == c as int
  {
    if c as int < 0x1_0000 then [c as int]
    else
      var v := c as int - 0x1_0000;
      [0xD800 + v / 0x400, 0xDC00 + v % 0x400]
  }

  /** The UTF-16 code units of a string. */
  function Utf16(s: string): (us: seq<CodeUnit>)
    ensures |s| <= |us| <= 2 * |s|
  {
    if s == [] then [] else EncodeRune(s[0]) + Utf16(s[1..])
  }

  lemma {:induction false} Utf16Concat(a: string, b: string)
    ensures Utf16(a + b) == Utf16(a) + Utf16(b)
  {
    if a == [] {
      assert a + b == b;
    } else {
      assert (a + b)[1..] == a[1..] + b;
      Utf16Concat(a[1..], b);
    }
  }

  /** The replacement the gateway's protocol prescribes for units that do not fit in one byte. */
  function Substitute(u: CodeUnit): (v: CodeUnit)
    ensures v <= 255
    ensures u <= 255 ==> v == u
    ensures u > 255 ==> v == Dot
  {
    if u > 255 then Dot else u
  }

  /** binary.LittleEndian form of one unit: low byte first. */
  function LittleEndian(u: CodeUnit): (bs: seq<byte>)
    ensures |bs| == 2 && bs[0] as int + 256 * bs[1] as int == u
  {
    [(u % 256) as byte, (u / 256) as byte]
  }

  /** The buffer the hash is taken of. */
  function Serialize(us: seq<CodeUnit>): (bs: seq<byte>)
    ensures |bs| == 2 * |us|
    ensures forall i :: 0 <= i < |us| ==> bs[2 * i + 1] == 0
  {
    if us == [] then [] else Serialize(us[..|us| - 1]) + LittleEndian(Substitute(us[|us| - 1]))
  }

  /** The buffer holds two bytes per unit: the (substituted) unit, then a zero byte. */
  lemma {:induction false} SerializeLayout(us: seq<CodeUnit>)
    ensures |Serialize(us)| == 2 * |us|
    ensures forall i :: 0 <= i < |us| ==>
      Serialize(us)[2 * i] as int == Substitute(us[i]) && Serialize(us)[2 * i + 1] == 0
  {
    if us != [] {
      var init := us[..|us| - 1];
      SerializeLayout(init);
      forall i | 0 <= i < |us|
        ensures Serialize(us)[2 * i] as int == Substitute(us[i]) && Serialize(us)[2 * i + 1] == 0
      {
        if i < |init| {
          assert us[i] == init[i];
        }
      }
    }
  }

  lemma {:induction false} SerializeConcat(a: seq<CodeUnit>, b: seq<CodeUnit>)
    ensures Serialize(a + b) == Serialize(a) + Serialize(b)
  {
    if b != [] {
      assert (a + b)[..|a + b| - 1] == a + b[..|b| - 1];
      SerializeConcat(a, b[..|b| - 1]);
    } else {
      assert a + b == a;
    }
  }

  /**
   * Units are only told apart up to 255: two unit sequences that agree
   * wherever a unit fits in a byte, and have units above 255 at the same
   * places, give the same buffer.
   */
  lemma {:induction false} SerializeSameShape(us: seq<CodeUnit>, vs: seq<CodeUnit>)
    requires |us| == |vs|
    requires forall i :: 0 <= i < |us| ==> us[i] == vs[i] || (us[i] > 255 && vs[i] > 255)
    ensures Serialize(us) == Serialize(vs)
  {
    if us != [] {
      SerializeSameShape(us[..|us| - 1], vs[..|vs| - 1]);
    }
  }

  /** A character outside the Basic Multilingual Plane becomes two units, so it stands for two dots. */
  lemma SupplementaryIsTwoDots(c: char)
    requires c as int >= 0x1_0000
    ensures Serialize(EncodeRune(c)) == [0x2E, 0, 0x2E, 0]
  {
    var us := EncodeRune(c);
    assert us[..1] == [us[0]] && us[..1][..0] == [];
    assert Serialize(us[..1]) == LittleEndian(Dot);
  }

  /** The bytes that are hashed for a challenge and a secret. */
  function LoginBytes(challenge: string, secret: string): seq<byte> {
    Serialize(Utf16(challenge + "-" + secret))
  }

  /** One lowercase hex digit. */
  function HexDigit(d: int): (c: char)
    requires 0 <= d < 16
    ensures IsLowerHex(c)
  {
    if d < 10 then ('0' as int + d) as char else ('a' as int + d - 10) as char
  }

  predicate IsLowerHex(c: char) {
    ('0' <= c <= '9') || ('a' <= c <= 'f')
  }

  /** Lowercase hex, two digits per byte: what `%x` prints for a byte slice. */
  function Hex(bs: seq<byte>): (s: string)
    ensures |s| == 2 * |bs|
    ensures forall i :: 0 <= i < |s| ==> IsLowerHex(s[i])
  {
    if bs == [] then []
    else [HexDigit(bs[0] as int / 16), HexDigit(bs[0] as int % 16)] + Hex(bs[1..])
  }

  /** The value of a lowercase hex digit; the inverse of HexDigit. */
  function DigitValue(c: char): (v: int)
    requires IsLowerHex(c)
    ensures 0 <= v < 16 && HexDigit(v) == c
  {
    if '0' <= c <= '9' then c as int - '0' as int else c as int - 'a' as int + 10
  }

  /** Reads lowercase hex back; the partner of Hex. */
  function UnHex(s: string): seq<byte>
    requires |s| % 2 == 0 && forall i :: 0 <= i < |s| ==> IsLowerHex(s[i])
  {
    if s == [] then []
    else [(DigitValue(s[0]) * 16 + DigitValue(s[1])) as byte] + UnHex(s[2..])
  }

  /** The hex form loses nothing: reading it back gives the digest bytes. */
  lemma {:induction false} UnHexHex(bs: seq<byte>)
    ensures UnHex(Hex(bs)) == bs
  {
    if bs != [] {
      var s := Hex(bs);
      assert s[2..] == Hex(bs[1..]);
      UnHexHex(bs[1..]);
    }
  }

  /** The response computeResponse returns for a digest function `md5`. */
  function Response(challenge: string, secret: string, md5: Md5): (r: string)
    ensures |r| == |challenge| + 33 && r[..|challenge| + 1] == challenge + "-"
    ensures forall i :: |challenge| + 1 <= i < |r| ==> IsLowerHex(r[i])
    ensures UnHex(r[|challenge| + 1..]) == md5(LoginBytes(challenge, secret))
  {
    var digest := md5(LoginBytes(challenge, secret));
    var r := challenge + "-" + Hex(digest);
    assert r[..|challenge| + 1] == challenge + "-";
    assert r[|challenge| + 1..] == Hex(digest);
    UnHexHex(digest);
    r
  }

  /** computeResponse: encodes unit by unit into a buffer, then hashes it. */
  method ComputeResponse(challenge: string, secret: string, md5: Md5) returns (r: string)
    ensures r == Response(challenge, secret, md5)
    ensures |r| == |challenge| + 33 && r[..|challenge| + 1] == challenge + "-"
    ensures forall i :: |challenge| + 1 <= i < |r| ==> IsLowerHex(r[i])
  {
    var units := Utf16(challenge + "-" + secret);
    var buf: seq<byte> := [];
    for i := 0 to |units|
      invariant buf == Serialize(units[..i])
    {
      var u := units[i];
      if u > 255 {
        u := Dot;
      }
      assert units[..i + 1][..i] == units[..i];
      buf := buf + LittleEndian(u);
    }
    assert units[..|units|] == units;
    r := challenge + "-" + Hex(md5(buf));
    assert r[..|challenge| + 1] == challenge + "-";
  }

  /**
   * Secrets that differ only in which characters above U+00FF (and below
   * U+10000) they hold give the same response: such characters all hash as ".".
   */
  lemma {:induction false} ResponseIgnoresWideCharacters(challenge: string, s: string, t: string, md5: Md5)
    requires |s| == |t|
    requires forall i :: 0 <= i < |s| ==>
      s[i] == t[i] || (255 < s[i] as int < 0x1_0000 && 255 < t[i] as int < 0x1_0000)
    ensures Response(challenge, s, md5) == Response(challenge, t, md5)
  {
    var p := challenge + "-";
    assert p + s == challenge + "-" + s;
    assert p + t == challenge + "-" + t;
    Utf16Concat(p, s);
    Utf16Concat(p, t);
    SerializeConcat(Utf16(p), Utf16(s));
    SerializeConcat(Utf16(p), Utf16(t));
    Utf16SameShape(s, t);
  }

  lemma {:induction false} Utf16SameShape(s: string, t: string)
    requires |s| == |t|
    requires forall i :: 0 <= i < |s| ==>
      s[i] == t[i] || (255 < s[i] as int < 0x1_0000 && 255 < t[i] as int < 0x1_0000)
    ensures Serialize(Utf16(s)) == Serialize(Utf16(t))
  {
    if s != [] {
      Utf16SameShape(s[1..], t[1..]);
      SerializeConcat(EncodeRune(s[0]), Utf16(s[1..]));
      SerializeConcat(EncodeRune(t[0]), Utf16(t[1..]));
      SerializeSameShape(EncodeRune(s[0]), EncodeRune(t[0]));
    }
  }

  /** The bytes hashed for the challenge "1234567z" and the secret "äbc": every character fits in one byte. */
  lemma LoginBytesExample()
    ensures LoginBytes("1234567z", "\U{00E4}bc") ==
      [0x31, 0, 0x32, 0, 0x33, 0, 0x34, 0, 0x35, 0, 0x36, 0, 0x37, 0, 0x7A, 0, 0x2D, 0, 0xE4, 0, 0x62, 0, 0x63, 0]
  {
    var a, b, c := Utf16OfVector();
    SerializeConcat(a + b, c);
    SerializeConcat(a, b);
  }

  lemma Utf16OfVector() returns (a: seq<CodeUnit>, b: seq<CodeUnit>, c: seq<CodeUnit>)
    ensures Utf16("1234567z" + "-" + "\U{00E4}bc") == a + b + c
    ensures Serialize(a) == [0x31, 0, 0x32, 0, 0x33, 0, 0x34, 0]
    ensures Serialize(b) == [0x35, 0, 0x36, 0, 0x37, 0, 0x7A, 0]
    ensures Serialize(c) == [0x2D, 0, 0xE4, 0, 0x62, 0, 0x63, 0]
  {
    var text := "1234567z" + "-" + "\U{00E4}bc";
    assert text == "1234" + "567z" + "-\U{00E4}bc";
    Utf16Concat("1234" + "567z", "-\U{00E4}bc");
    Utf16Concat("1234", "567z");
    a := Utf16Chunk1();
    b := Utf16Chunk2();
    c := Utf16Chunk3();
  }

  lemma Utf16Chunk1() returns (us: seq<CodeUnit>)
    ensures us == Utf16("1234") && Serialize(us) == [0x31, 0, 0x32, 0, 0x33, 0, 0x34, 0]
  {
    var t := "1234";
    assert t[1..][1..][1..][1..] == [];
    us := Utf16(t);
    assert us == [0x31, 0x32, 0x33, 0x34];
    assert us[..1][..0] == us[..0];
    assert Serialize(us[..1]) == [0x31, 0];
    assert us[..2][..1] == us[..1];
    assert Serialize(us[..2]) == [0x31, 0, 0x32, 0];
    assert us[..3][..2] == us[..2];
    assert Serialize(us[..3]) == [0x31, 0, 0x32, 0, 0x33, 0];
    assert us[..4][..3] == us[..3];
    assert Serialize(us[..4]) == [0x31, 0, 0x32, 0, 0x33, 0, 0x34, 0];
    assert us[..4] == us;
  }

  lemma Utf16Chunk2() returns (us: seq<CodeUnit>)
    ensures us == Utf16("567z") && Serialize(us) == [0x35, 0, 0x36, 0, 0x37, 0, 0x7A, 0]
  {
    var t := "567z";
    assert t[1..][1..][1..][1..] == [];
    us := Utf16(t);
    assert us == [0x35, 0x36, 0x37, 0x7A];
    assert us[..1][..0] == us[..0];
    assert Serialize(us[..1]) == [0x35, 0];
    assert us[..2][..1] == us[..1];
    assert Serialize(us[..2]) == [0x35, 0, 0x36, 0];
    assert us[..3][..2] == us[..2];
    assert Serialize(us[..3]) == [0x35, 0, 0x36, 0, 0x37, 0];
    assert us[..4][..3] == us[..3];
    assert Serialize(us[..4]) == [0x35, 0, 0x36, 0, 0x37, 0, 0x7A, 0];
    assert us[..4] == us;
  }

  lemma Utf16Chunk3() returns (us: seq<CodeUnit>)
    ensures us == Utf16("-\U{00E4}bc") && Serialize(us) == [0x2D, 0, 0xE4, 0, 0x62, 0, 0x63, 0]
  {
    var t := "-\U{00E4}bc";
    assert t[1..][1..][1..][1..] == [];
    us := Utf16(t);
    assert us == [0x2D, 0xE4, 0x62, 0x63];
    assert us[..1][..0] == us[..0];
    assert Serialize(us[..1]) == [0x2D, 0];
    assert us[..2][..1] == us[..1];
    assert Serialize(us[..2]) == [0x2D, 0, 0xE4, 0];
    assert us[..3][..2] == us[..2];
    assert Serialize(us[..3]) == [0x2D, 0, 0xE4, 0, 0x62, 0];
    assert us[..4][..3] == us[..3];
    assert Serialize(us[..4]) == [0x2D, 0, 0xE4, 0, 0x62, 0, 0x63, 0];
    assert us[..4] == us;
  }

  /** A string of characters below U+10000 has one unit per character, the character itself. */
  lemma {:induction false} Utf16Narrow(s: string)
    requires forall i :: 0 <= i < |s| ==> s[i] as int < 0x1_0000
    ensures |Utf16(s)| == |s| && forall i :: 0 <= i < |s| ==> Utf16(s)[i] == s[i] as int
  {
    if s != [] {
      Utf16Narrow(s[1..]);
    }
  }

  /** Byte `i` is printed as hex digits `2i` and `2i+1`, high nibble first. */
  lemma {:induction false} HexLayout(bs: seq<byte>)
    ensures forall i :: 0 <= i < |bs| ==>
      Hex(bs)[2 * i] == HexDigit(bs[i] as int / 16) && Hex(bs)[2 * i + 1] == HexDigit(bs[i] as int % 16)
  {
    if bs != [] {
      HexLayout(bs[1..]);
      forall i | 1 <= i < |bs|
        ensures Hex(bs)[2 * i] == HexDigit(bs[i] as int / 16) && Hex(bs)[2 * i + 1] == HexDigit(bs[i] as int % 16)
      {
        assert Hex(bs)[2 * i] == Hex(bs[1..])[2 * (i - 1)];
        assert Hex(bs)[2 * i + 1] == Hex(bs[1..])[2 * (i - 1) + 1];
      }
    }
  }

  /** The published vector: with MD5's digest of those bytes the response is "1234567z-9e224a41eeefa284df7bb0f26c2913e2". */
  lemma ResponseExample(md5: Md5, challenge: string, secret: string)
    requires challenge == "1234567z" && secret == "\U{00E4}bc"
    requires md5(LoginBytes(challenge, secret)) ==
      [0x9e, 0x22, 0x4a, 0x41, 0xee, 0xef, 0xa2, 0x84, 0xdf, 0x7b, 0xb0, 0xf2, 0x6c, 0x29, 0x13, 0xe2]
    ensures Response(challenge, secret, md5) == "1234567z-9e224a41eeefa284df7bb0f26c2913e2"
  {
    var d := DigestHex();
    var hex := Hex(d);
    assert Response(challenge, secret, md5) == challenge + "-" + hex;
    VectorText(challenge, hex);
  }

  lemma VectorText(challenge: string, hex: string)
    requires challenge == "1234567z" && hex == "9e224a41eeefa284df7bb0f26c2913e2"
    ensures challenge + "-" + hex == "1234567z-9e224a41eeefa284df7bb0f26c2913e2"
  {
    assert challenge + "-" == "1234567z-";
    assert "1234567z-" + "9e224a41eeefa284" == "1234567z-9e224a41eeefa284";
    assert "1234567z-9e224a41eeefa284" + "df7bb0f26c2913e2" == "1234567z-9e224a41eeefa284df7bb0f26c2913e2";
    assert hex == "9e224a41eeefa284" + "df7bb0f26c2913e2";
  }

  lemma DigestHex() returns (d: seq<byte>)
    ensures d == [0x9e, 0x22, 0x4a, 0x41, 0xee, 0xef, 0xa2, 0x84, 0xdf, 0x7b, 0xb0, 0xf2, 0x6c, 0x29, 0x13, 0xe2]
    ensures Hex(d) == "9e224a41eeefa284df7bb0f26c2913e2"
  {
    var x := DigestHalf1();
    var y := DigestHalf2();
    d := x + y;
    HexSplit(x, y);
    assert "9e224a41eeefa284" + "df7bb0f26c2913e2" == "9e224a41eeefa284df7bb0f26c2913e2";
  }

  lemma DigestHalf1() returns (d: seq<byte>)
    ensures d == [0x9e, 0x22, 0x4a, 0x41, 0xee, 0xef, 0xa2, 0x84] && Hex(d) == "9e224a41eeefa284"
  {
    var a := DigestChunk1();
    var b := DigestChunk2();
    d := a + b;
    HexSplit(a, b);
    assert "9e224a41" + "eeefa284" == "9e224a41eeefa284";
  }

  lemma DigestHalf2() returns (d: seq<byte>)
    ensures d == [0xdf, 0x7b, 0xb0, 0xf2, 0x6c, 0x29, 0x13, 0xe2] && Hex(d) == "df7bb0f26c2913e2"
  {
    var a := DigestChunk3();
    var b := DigestChunk4();
    d := a + b;
    HexSplit(a, b);
    assert "df7bb0f2" + "6c2913e2" == "df7bb0f26c2913e2";
  }

  lemma DigestChunk1() returns (d: seq<byte>)
    ensures d == [0x9e, 0x22, 0x4a, 0x41] && Hex(d) == "9e224a41"
  {
    d := [0x9e, 0x22, 0x4a, 0x41];
    assert d[1..] == [0x9e, 0x22, 0x4a, 0x41][1..];
    assert d[1..][1..] == [0x9e, 0x22, 0x4a, 0x41][2..];
    assert d[1..][1..][1..] == [0x9e, 0x22, 0x4a, 0x41][3..];
    assert d[1..][1..][1..][1..] == [];
  }

  lemma DigestChunk2() returns (d: seq<byte>)
    ensures d == [0xee, 0xef, 0xa2, 0x84] && Hex(d) == "eeefa284"
  {
    d := [0xee, 0xef, 0xa2, 0x84];
    assert d[1..] == [0xee, 0xef, 0xa2, 0x84][1..];
    assert d[1..][1..] == [0xee, 0xef, 0xa2, 0x84][2..];
    assert d[1..][1..][1..] == [0xee, 0xef, 0xa2, 0x84][3..];
    assert d[1..][1..][1..][1..] == [];
  }

  lemma DigestChunk3() returns (d: seq<byte>)
    ensures d == [0xdf, 0x7b, 0xb0, 0xf2] && Hex(d) == "df7bb0f2"
  {
    d := [0xdf, 0x7b, 0xb0, 0xf2];
    assert d[1..] == [0xdf, 0x7b, 0xb0, 0xf2][1..];
    assert d[1..][1..] == [0xdf, 0x7b, 0xb0, 0xf2][2..];
    assert d[1..][1..][1..] == [0xdf, 0x7b, 0xb0, 0xf2][3..];
    assert d[1..][1..][1..][1..] == [];
  }

  lemma DigestChunk4() returns (d: seq<byte>)
    ensures d == [0x6c, 0x29, 0x13, 0xe2] && Hex(d) == "6c2913e2"
  {
    d := [0x6c, 0x29, 0x13, 0xe2];
    assert d[1..] == [0x6c, 0x29, 0x13, 0xe2][1..];
    assert d[1..][1..] == [0x6c, 0x29, 0x13, 0xe2][2..];
    assert d[1..][1..][1..] == [0x6c, 0x29, 0x13, 0xe2][3..];
    assert d[1..][1..][1..][1..] == [];
  }

  lemma {:induction false} HexSplit(a: seq<byte>, b: seq<byte>)
    ensures Hex(a + b) == Hex(a) + Hex(b)
  {
    if a != [] {
      assert (a + b)[1..] == a[1..] + b;
      HexSplit(a[1..], b);
    } else {
      assert a + b == b;
    }
  }
}
