/** Unpadded base64url (section 5 of RFC 4648): three bytes give four characters. */
module Base64 {
  import opened Text

  newtype Byte = x: int | 0 <= x < 256

  /** The character of a six-bit group. */
  function Sextet(n: int): (c: char)
    requires 0 <= n < 64
    ensures IsB64Char(c)
  {
    if n < 26 then 'A' + n as char
    else if n < 52 then 'a' + (n - 26) as char
    else if n < 62 then '0' + (n - 52) as char
    else if n == 62 then '-' else '_'
  }

  /** The six-bit group of a character. */
  function Group(c: char): int {
    if 'A' <= c <= 'Z' then c as int - 'A' as int
    else if 'a' <= c <= 'z' then c as int - 'a' as int + 26
    else if '0' <= c <= '9' then c as int - '0' as int + 52
    else if c == '-' then 62 else 63
  }

  lemma GroupOfSextet(n: int)
    requires 0 <= n < 64
    ensures Group(Sextet(n)) == n
  {
  }

  function Encode(b: seq<Byte>): (s: string)
    ensures |s| == (4 * |b| + 2) / 3
    ensures forall i :: 0 <= i < |s| ==> IsB64Char(s[i])
  {
    if b == [] then ""
    else
      var x := b[0] as int;
      if |b| == 1 then [Sextet(x / 4), Sextet(x % 4 * 16)]
      else
        var y := b[1] as int;
        if |b| == 2 then [Sextet(x / 4), Sextet(x % 4 * 16 + y / 16), Sextet(y % 16 * 4)]
        else
          var z := b[2] as int;
          [Sextet(x / 4), Sextet(x % 4 * 16 + y / 16), Sextet(y % 16 * 4 + z / 64), Sextet(z % 64)] + Encode(b[3..])
  }

  /** Test vectors of section 10 of RFC 4648, and one with the two characters of its own
      that the URL-safe alphabet has. */
  lemma EncodesVectors()
    ensures Encode([102]) == "Zg" && Encode([102, 111]) == "Zm8" && Encode([102, 111, 111]) == "Zm9v"
    ensures Encode([251, 255]) == "-_8"
  {
    assert [102 as Byte, 111, 111][3..] == [];
  }

  function Clip(n: int): Byte {
    (n % 256) as Byte
  }

  function Decode(s: string): seq<Byte>
    decreases |s|
  {
    if |s| < 2 then []
    else
      var p, q := Group(s[0]), Group(s[1]);
      var x := Clip(p * 4 + q / 16);
      if |s| == 2 then [x]
      else
        var r := Group(s[2]);
        var y := Clip(q * 16 + r / 4);
        if |s| == 3 then [x, y]
        else [x, y, Clip(r * 64 + Group(s[3]))] + Decode(s[4..])
  }

  lemma FirstByte(x: int, y: int)
    requires 0 <= x < 256 && 0 <= y < 256
    ensures (x / 4 * 4 + (x % 4 * 16 + y / 16) / 16) % 256 == x
  {
    assert (x % 4 * 16 + y / 16) / 16 == x % 4;
  }

  lemma SecondByte(x: int, y: int, z: int)
    requires 0 <= x < 256 && 0 <= y < 256 && 0 <= z < 256
    ensures ((x % 4 * 16 + y / 16) * 16 + (y % 16 * 4 + z / 64) / 4) % 256 == y
  {
    assert (y % 16 * 4 + z / 64) / 4 == y % 16;
    assert (x % 4 * 16 + y / 16) * 16 + y % 16 == 256 * (x % 4) + y;
  }

  lemma ThirdByte(y: int, z: int)
    requires 0 <= y < 256 && 0 <= z < 256
    ensures ((y % 16 * 4 + z / 64) * 64 + z % 64) % 256 == z
  {
    assert (y % 16 * 4 + z / 64) * 64 + z % 64 == 256 * (y % 16) + z;
  }

  /** Three bytes of a text that goes on. */
  lemma DecodeStep(x: Byte, y: Byte, z: Byte, rest: seq<Byte>)
    ensures Encode([x, y, z] + rest)[4..] == Encode(rest)
    ensures Decode(Encode([x, y, z] + rest)) == [x, y, z] + Decode(Encode(rest))
  {
    var b, i, j, k := [x, y, z] + rest, x as int, y as int, z as int;
    var s := Encode(b);
    assert b[3..] == rest && s[4..] == Encode(rest);
    GroupsAre(s, i / 4, i % 4 * 16 + j / 16, j % 16 * 4 + k / 64, k % 64);
    FirstByte(i, j);
    SecondByte(i, j, k);
    ThirdByte(j, k);
    hide Encode, Group;
  }

  lemma GroupsAre(s: string, a: int, b: int, c: int, d: int)
    requires 0 <= a < 64 && 0 <= b < 64 && 0 <= c < 64 && 0 <= d < 64
    requires |s| >= 4 && s[0] == Sextet(a) && s[1] == Sextet(b) && s[2] == Sextet(c) && s[3] == Sextet(d)
    ensures Group(s[0]) == a && Group(s[1]) == b && Group(s[2]) == c && Group(s[3]) == d
  {
    GroupOfSextet(a);
    GroupOfSextet(b);
    GroupOfSextet(c);
    GroupOfSextet(d);
  }

  lemma DecodeOne(x: Byte)
    ensures Decode(Encode([x])) == [x]
  {
    var s, i := Encode([x]), x as int;
    assert s == [Sextet(i / 4), Sextet(i % 4 * 16)];
    GroupOfSextet(i / 4);
    GroupOfSextet(i % 4 * 16);
    FirstByte(i, 0);
    hide Encode, Group;
  }

  lemma DecodeTwo(x: Byte, y: Byte)
    ensures Decode(Encode([x, y])) == [x, y]
  {
    var s, i, j := Encode([x, y]), x as int, y as int;
    assert s == [Sextet(i / 4), Sextet(i % 4 * 16 + j / 16), Sextet(j % 16 * 4)];
    GroupOfSextet(i / 4);
    GroupOfSextet(i % 4 * 16 + j / 16);
    GroupOfSextet(j % 16 * 4);
    FirstByte(i, j);
    SecondByte(i, j, 0);
    hide Encode, Group;
  }

  lemma DecodeTail(b: seq<Byte>)
    requires |b| < 3
    ensures Decode(Encode(b)) == b
  {
    if |b| == 1 {
      hide *;
      assert b == [b[0]];
      DecodeOne(b[0]);
    } else if |b| == 2 {
      hide *;
      assert b == [b[0], b[1]];
      DecodeTwo(b[0], b[1]);
    }
  }

  /** Decoding gives the bytes back, so no two byte strings have the same text. */
  lemma {:induction false} DecodeOfEncode(b: seq<Byte>)
    ensures Decode(Encode(b)) == b
  {
    hide *;
    if |b| < 3 {
      DecodeTail(b);
    } else {
      assert b == [b[0], b[1], b[2]] + b[3..];
      DecodeStep(b[0], b[1], b[2], b[3..]);
      DecodeOfEncode(b[3..]);
    }
  }
}
