/**
 * `Convert.ToBase64String`: the base 64 encoding of section 4 of RFC 4648
 * (alphabet A-Z a-z 0-9 + /, padded with '=' to a multiple of four
 * characters), and a decoder used to show that the encoding is injective.
 */
module Base64 {
  import opened Results

  type byte = x: int | 0 <= x < 256
  type Sextet = x: int | 0 <= x < 64

  /** The 32 bytes a refresh token is made from, as the random number generator fills them. */
  type Bytes32 = b: seq<byte> | |b| == 32 witness seq(32, _ => 0)

  /** The character of the base 64 alphabet for a 6-bit value (Table 1 of RFC 4648). */
  function Char(i: Sextet): char
  {
    if i < 26 then ('A' as int + i) as char
    else if i < 52 then ('a' as int + i - 26) as char
    else if i < 62 then ('0' as int + i - 52) as char
    else if i == 62 then '+'
    else '/'
  }

  function Index(c: char): Option<Sextet>
  {
    if 'A' <= c <= 'Z' then Some(c as int - 'A' as int)
    else if 'a' <= c <= 'z' then Some(c as int - 'a' as int + 26)
    else if '0' <= c <= '9' then Some(c as int - '0' as int + 52)
    else if c == '+' then Some(62)
    else if c == '/' then Some(63)
    else None
  }

  predicate IsAlphabet(c: char)
  {
    Index(c).Some?
  }

  lemma IndexOfChar(i: Sextet)
    ensures Index(Char(i)) == Some(i)
  {
  }

  /** Each group of three bytes becomes four characters; a final group of one or two bytes is padded. */
  function Encode(b: seq<byte>): (s: string)
    decreases |b|
  {
    if |b| == 0 then []
    else if |b| == 1 then [Char(b[0] / 4), Char(b[0] % 4 * 16), '=', '=']
    else if |b| == 2 then [Char(b[0] / 4), Char(b[0] % 4 * 16 + b[1] / 16), Char(b[1] % 16 * 4), '=']
    else
      Quad(b[0], b[1], b[2]) + Encode(b[3..])
  }

  function Decode(s: string): Option<seq<byte>>
    decreases |s|
  {
    if |s| == 0 then Some([])
    else if |s| < 4 then None
    else
      var c0, c1, c2, c3 := Index(s[0]), Index(s[1]), Index(s[2]), Index(s[3]);
      if c0.None? || c1.None? then None
      else if |s| == 4 && s[2] == '=' && s[3] == '=' then
        if c1.value % 16 == 0 then Some([c0.value * 4 + c1.value / 16]) else None
      else if c2.None? then None
      else if |s| == 4 && s[3] == '=' then
        if c2.value % 4 == 0 then Some([c0.value * 4 + c1.value / 16, c1.value % 16 * 16 + c2.value / 4])
        else None
      else if c3.None? then None
      else
        match Decode(s[4..])
        case None => None
        case Some(rest) =>
          Some([c0.value * 4 + c1.value / 16, c1.value % 16 * 16 + c2.value / 4, c2.value % 4 * 64 + c3.value] + rest)
  }

  /** The encoding of n bytes has 4 * ceil(n / 3) characters. */
  lemma {:induction false} EncodeLength(b: seq<byte>)
    ensures |Encode(b)| == 4 * ((|b| + 2) / 3)
    decreases |b|
  {
    if |b| > 2 {
      EncodeLength(b[3..]);
      assert (|b| + 2) / 3 == (|b[3..]| + 2) / 3 + 1;
    }
  }

  /** Every character of an encoding is from the alphabet or is padding. */
  lemma {:induction false} EncodeAlphabet(b: seq<byte>)
    ensures forall i :: 0 <= i < |Encode(b)| ==> IsAlphabet(Encode(b)[i]) || Encode(b)[i] == '='
    decreases |b|
  {
    if |b| > 2 {
      EncodeAlphabet(b[3..]);
      var head := Quad(b[0], b[1], b[2]);
      assert Encode(b) == head + Encode(b[3..]);
      forall i | 0 <= i < 4 ensures IsAlphabet(head[i]) {
        IndexOfChar(b[0] / 4);
        IndexOfChar(b[0] % 4 * 16 + b[1] / 16);
        IndexOfChar(b[1] % 16 * 4 + b[2] / 64);
        IndexOfChar(b[2] % 64);
      }
    } else {
      if |b| >= 1 { IndexOfChar(b[0] / 4); }
      if |b| == 1 { IndexOfChar(b[0] % 4 * 16); }
      if |b| == 2 {
        IndexOfChar(b[0] % 4 * 16 + b[1] / 16);
        IndexOfChar(b[1] % 16 * 4);
      }
    }
  }

  lemma DecodeGroup(x: byte, y: byte, z: byte)
    ensures (x / 4) * 4 + (x % 4 * 16 + y / 16) / 16 == x
    ensures (x % 4 * 16 + y / 16) % 16 * 16 + (y % 16 * 4 + z / 64) / 4 == y
    ensures (y % 16 * 4 + z / 64) % 4 * 64 + z % 64 == z
  {
  }

  lemma DecodeOne(x: byte)
    ensures Decode(Encode([x])) == Some([x])
  {
    IndexOfChar(x / 4);
    IndexOfChar(x % 4 * 16);
    DecodeGroup(x, 0, 0);
  }

  lemma DecodeTwo(x: byte, y: byte)
    ensures Decode(Encode([x, y])) == Some([x, y])
  {
    var c0, c1, c2 := x / 4, x % 4 * 16 + y / 16, y % 16 * 4;
    var s := Encode([x, y]);
    assert s == [Char(c0), Char(c1), Char(c2), '='];
    IndexOfChar(c0);
    IndexOfChar(c1);
    IndexOfChar(c2);
    DecodeGroup(x, y, 0);
    assert c2 % 4 == 0;
  }

  /** The four characters that encode three bytes. */
  function Quad(x: byte, y: byte, z: byte): (s: string)
    ensures |s| == 4
  {
    [Char(x / 4), Char(x % 4 * 16 + y / 16), Char(y % 16 * 4 + z / 64), Char(z % 64)]
  }

  lemma DecodeStep(x: byte, y: byte, z: byte, t: string, rest: seq<byte>)
    requires Decode(t) == Some(rest)
    ensures Decode(Quad(x, y, z) + t) == Some([x, y, z] + rest)
  {
    var s := Quad(x, y, z) + t;
    assert s[4..] == t;
    IndexOfChar(x / 4);
    IndexOfChar(x % 4 * 16 + y / 16);
    IndexOfChar(y % 16 * 4 + z / 64);
    IndexOfChar(z % 64);
    assert s[3] != '=';
    DecodeGroup(x, y, z);
  }

  /** Decoding undoes encoding. */
  lemma {:induction false} DecodeEncode(b: seq<byte>)
    ensures Decode(Encode(b)) == Some(b)
    decreases |b|
  {
    if |b| == 1 {
      assert b == [b[0]];
      DecodeOne(b[0]);
    } else if |b| == 2 {
      assert b == [b[0], b[1]];
      DecodeTwo(b[0], b[1]);
    } else if |b| > 2 {
      DecodeEncode(b[3..]);
      assert Encode(b) == Quad(b[0], b[1], b[2]) + Encode(b[3..]);
      DecodeStep(b[0], b[1], b[2], Encode(b[3..]), b[3..]);
      assert [b[0], b[1], b[2]] + b[3..] == b;
    }
  }

  /** Distinct byte strings have distinct encodings. */
  lemma EncodeInjective(a: seq<byte>, b: seq<byte>)
    ensures Encode(a) == Encode(b) ==> a == b
  {
    DecodeEncode(a);
    DecodeEncode(b);
  }

  /** The encoding of 32 bytes has 44 characters, the last of them a single '='. */
  lemma Encode32(b: seq<byte>)
    requires |b| == 32
    ensures |Encode(b)| == 44
    ensures Encode(b)[43] == '=' && Encode(b)[42] != '='
  {
    EncodeLength(b);
    Encode32Tail(b);
  }

  lemma {:induction false} Encode32Tail(b: seq<byte>)
    requires |b| % 3 == 2
    ensures |Encode(b)| >= 4
    ensures Encode(b)[|Encode(b)| - 1] == '=' && Encode(b)[|Encode(b)| - 2] != '='
    decreases |b|
  {
    if |b| > 2 {
      Encode32Tail(b[3..]);
    }
  }
}
