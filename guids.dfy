/**
 * System.Guid as the services use it: `ToString()` (the "D" format, lower-case,
 * 8-4-4-4-12 digits) and `Guid.TryParse`, which trims surrounding white space
 * and accepts the "D", "N", "B" and "P" formats in either case.
 */
module Guids {
  import opened Results
  import opened Chars

  type Nibble = x: int | 0 <= x < 16

  /** A GUID, as its 32 hexadecimal digits in display order. */
  type Guid = s: seq<Nibble> | |s| == 32 witness seq(32, _ => 0)

  function HexDigit(n: Nibble): char
  {
    if n < 10 then ('0' as int + n) as char else ('a' as int + n - 10) as char
  }

  function HexValue(c: char): Option<Nibble>
  {
    if '0' <= c <= '9' then Some(c as int - '0' as int)
    else if 'a' <= c <= 'f' then Some(c as int - 'a' as int + 10)
    else if 'A' <= c <= 'F' then Some(c as int - 'A' as int + 10)
    else None
  }

  function Hex(ns: seq<Nibble>): (s: string)
    ensures |s| == |ns|
  {
    seq(|ns|, i requires 0 <= i < |ns| => HexDigit(ns[i]))
  }

  /** The digits of `s`, if every character of `s` is a hexadecimal digit. */
  function ParseHex(s: string): (r: Option<seq<Nibble>>)
    ensures r.Some? ==> |r.value| == |s|
  {
    if s == [] then Some([])
    else
      match HexValue(s[0])
      case None => None
      case Some(n) =>
        match ParseHex(s[1..])
        case None => None
        case Some(rest) => Some([n] + rest)
  }

  /** `Guid.ToString()`: the "D" format. */
  function Format(g: Guid): (s: string)
    ensures |s| == 36
  {
    Hex(g[..8]) + "-" + Hex(g[8..12]) + "-" + Hex(g[12..16]) + "-" + Hex(g[16..20]) + "-" + Hex(g[20..])
  }

  function AsGuid(r: Option<seq<Nibble>>): Option<Guid>
  {
    if r.Some? && |r.value| == 32 then var g: Guid := r.value; Some(g) else None
  }

  /** The "D" format: 36 characters with dashes at 8, 13, 18 and 23. */
  function ParseDashed(s: string): Option<Guid>
  {
    if |s| == 36 && s[8] == '-' && s[13] == '-' && s[18] == '-' && s[23] == '-' then
      AsGuid(ParseHex(s[..8] + s[9..13] + s[14..18] + s[19..23] + s[24..]))
    else
      None
  }

  /** The four formats, on a string with no white space around it. */
  function ParseFormats(t: string): (r: Option<Guid>)
    ensures r.Some? ==> |t| in {32, 36, 38}
  {
    if |t| == 32 then AsGuid(ParseHex(t))
    else if |t| == 36 then ParseDashed(t)
    else if |t| == 38 && ((t[0] == '{' && t[37] == '}') || (t[0] == '(' && t[37] == ')')) then
      ParseDashed(t[1..37])
    else None
  }

  /** `Guid.TryParse`: None where it returns false. White space around the digits is ignored. */
  function TryParse(s: string): (r: Option<Guid>)
    ensures r.Some? ==> |Trim(s)| in {32, 36, 38}
  {
    ParseFormats(Trim(s))
  }

  /** `Guid.TryParse` on a string that may be null. */
  function TryParseNullable(s: Option<string>): Option<Guid>
  {
    if s.None? then None else TryParse(s.value)
  }

  lemma {:induction false} ParseHexOfHex(ns: seq<Nibble>)
    ensures ParseHex(Hex(ns)) == Some(ns)
  {
    if ns != [] {
      var s := Hex(ns);
      assert s[1..] == Hex(ns[1..]);
      ParseHexOfHex(ns[1..]);
      assert HexValue(s[0]) == Some(ns[0]);
      assert [ns[0]] + ns[1..] == ns;
    }
  }

  /** What `ToString()` prints starts and ends with a hexadecimal digit, so trimming leaves it as it is. */
  lemma FormatUntrimmed(g: Guid)
    ensures Trim(Format(g)) == Format(g)
  {
    var s := Format(g);
    assert s[0] == HexDigit(g[0]);
    assert s[35] == HexDigit(g[31]);
    TrimPadded("", s, "");
    assert "" + s + "" == s;
  }

  lemma HexAppend(a: seq<Nibble>, b: seq<Nibble>)
    ensures Hex(a + b) == Hex(a) + Hex(b)
  {
  }

  lemma ParseDashedFormat(g: Guid)
    ensures ParseDashed(Format(g)) == Some(g)
  {
    var s := Format(g);
    var a, b, c, d, e := g[..8], g[8..12], g[12..16], g[16..20], g[20..];
    assert s[..8] == Hex(a);
    assert s[9..13] == Hex(b);
    assert s[14..18] == Hex(c);
    assert s[19..23] == Hex(d);
    assert s[24..] == Hex(e);
    HexAppend(a, b);
    HexAppend(a + b, c);
    HexAppend(a + b + c, d);
    HexAppend(a + b + c + d, e);
    assert a + b + c + d + e == g;
    ParseHexOfHex(g);
  }

  /** Parsing what `ToString()` prints gives back the same GUID. */
  lemma TryParseFormat(g: Guid)
    ensures TryParse(Format(g)) == Some(g)
  {
    FormatUntrimmed(g);
    ParseDashedFormat(g);
  }

  /** White space around a printed GUID does not stop it from parsing. */
  lemma PaddedFormatParses(g: Guid, before: string, after: string)
    requires AllWhiteSpace(before) && AllWhiteSpace(after)
    ensures TryParse(before + Format(g) + after) == Some(g)
  {
    var s := Format(g);
    assert s[0] == HexDigit(g[0]);
    assert s[35] == HexDigit(g[31]);
    TrimPadded(before, s, after);
    FormatUntrimmed(g);
    TryParseFormat(g);
  }

  /** Distinct GUIDs print differently. */
  lemma FormatInjective(g: Guid, h: Guid)
    ensures Format(g) == Format(h) ==> g == h
  {
    TryParseFormat(g);
    TryParseFormat(h);
  }

  /** The empty string, which `string.IsNullOrEmpty` also rejects, is not a GUID. */
  lemma EmptyIsNotGuid()
    ensures TryParse("") == None
  {
  }
}
