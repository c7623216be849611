/** Base 64 without padding, as section 3.2 and section 4 of RFC 4648 describe it and Go's
    `base64.RawStdEncoding` reads it. */
module Base64 {
  import opened Common

  type byte = x: int | 0 <= x < 256

  /** The standard alphabet. */
  function Char(v: nat): char
    requires v < 64
  {
    if v < 26 then 'A' + v as char
    else if v < 52 then 'a' + (v - 26) as char
    else if v < 62 then '0' + (v - 52) as char
    else if v == 62 then '+'
    else '/'
  }

  /** The value of a character; `None` outside the alphabet. */
  function Value(c: char): (v: Option<nat>)
    ensures v.Some? ==> v.value < 64
  {
    if 'A' <= c <= 'Z' then Some(c as int - 'A' as int)
    else if 'a' <= c <= 'z' then Some(c as int - 'a' as int + 26)
    else if '0' <= c <= '9' then Some(c as int - '0' as int + 52)
    else if c == '+' then Some(62)
    else if c == '/' then Some(63)
    else None
  }

  type sextet = x: int | 0 <= x < 64

  // Eight bits three times are six bits four times.

  function Sextet1(x: nat): sextet requires x < 256 { x / 4 }
  function Sextet2(x: nat, y: nat): sextet requires x < 256 && y < 256 { x % 4 * 16 + y / 16 }
  function Sextet3(y: nat, z: nat): sextet requires y < 256 && z < 256 { y % 16 * 4 + z / 64 }
  function Sextet4(z: nat): sextet requires z < 256 { z % 64 }

  function Octet1(a: nat, b: nat): byte requires a < 64 && b < 64 { a * 4 + b / 16 }
  function Octet2(b: nat, c: nat): byte requires b < 64 && c < 64 { b % 16 * 16 + c / 4 }
  function Octet3(c: nat, d: nat): byte requires c < 64 && d < 64 { c % 4 * 64 + d }

  /** A short last group is filled up with zero bits. */
  function Sextets(bs: seq<byte>): seq<sextet> {
    if |bs| == 0 then []
    else if |bs| == 1 then [Sextet1(bs[0]), Sextet2(bs[0], 0)]
    else if |bs| == 2 then [Sextet1(bs[0]), Sextet2(bs[0], bs[1]), Sextet3(bs[1], 0)]
    else [Sextet1(bs[0]), Sextet2(bs[0], bs[1]), Sextet3(bs[1], bs[2]), Sextet4(bs[2])] + Sextets(bs[3..])
  }

  /** A group of one is no byte, and bits left over are not looked at. */
  function Octets(vs: seq<sextet>): seq<byte> {
    if |vs| < 2 then []
    else if |vs| == 2 then [Octet1(vs[0], vs[1])]
    else if |vs| == 3 then [Octet1(vs[0], vs[1]), Octet2(vs[1], vs[2])]
    else [Octet1(vs[0], vs[1]), Octet2(vs[1], vs[2]), Octet3(vs[2], vs[3])] + Octets(vs[4..])
  }

  function Chars(vs: seq<sextet>): string {
    if vs == [] then "" else Chars(vs[..|vs| - 1]) + [Char(vs[|vs| - 1])]
  }

  /** The values of a text, line breaks skipped; `None` if a character is outside the alphabet. */
  function Values(s: string): Option<seq<sextet>> {
    if s == "" then Some([])
    else
      var vs, c := Values(s[..|s| - 1]), s[|s| - 1];
      if vs.None? || IsBreak(c) then vs
      else match Value(c) case None => None case Some(v) => Some(vs.value + [v])
  }

  predicate IsBreak(c: char) {
    c == '\r' || c == '\n'
  }

  /** `EncodeToString`. */
  function Encode(bs: seq<byte>): string {
    Chars(Sextets(bs))
  }

  /** `DecodeString`. */
  function Decode(s: string): Option<seq<byte>> {
    match Values(s)
    case None => None
    case Some(vs) => if |vs| % 4 == 1 then None else Some(Octets(vs))
  }

  // ----- The standard's own terms -----

  /** Table 1 of RFC 4648: capitals, then small letters, then digits, each in order, then plus and slash. */
  lemma {:induction false} CharIsTable(v: nat)
    requires v < 63
    ensures Char(0) == 'A' && Char(26) == 'a' && Char(52) == '0' && Char(62) == '+' && Char(63) == '/'
    ensures v !in {25, 51, 61, 62} ==> Char(v + 1) as int == Char(v) as int + 1
  {
  }

  /** Section 4 of RFC 4648: three bytes and their four sextets are the same 24 bits, the first most significant. */
  lemma {:induction false} SameBits(x: byte, y: byte, z: byte)
    ensures x * 0x10000 + y * 0x100 + z
         == Sextet1(x) * 0x40000 + Sextet2(x, y) * 0x1000 + Sextet3(y, z) * 0x40 + Sextet4(z)
  {
  }

  // ----- Round trip -----

  lemma {:induction false} CharValue(v: nat)
    requires v < 64
    ensures Value(Char(v)) == Some(v)
    ensures !IsBreak(Char(v)) && Char(v) != '$'
  {
  }

  lemma {:induction false} ValuesSnoc(s: string, c: char, vs: seq<sextet>, v: sextet)
    requires Values(s) == Some(vs) && Value(c) == Some(v) && !IsBreak(c)
    ensures Values(s + [c]) == Some(vs + [v])
  {
    assert (s + [c])[..|s|] == s;
  }

  lemma {:induction false} ValuesOfChars(vs: seq<sextet>)
    ensures Values(Chars(vs)) == Some(vs) && '$' !in Chars(vs)
  {
    if vs != [] {
      var n := |vs| - 1;
      ValuesOfChars(vs[..n]);
      CharValue(vs[n]);
      ValuesSnoc(Chars(vs[..n]), Char(vs[n]), vs[..n], vs[n]);
      assert vs == vs[..n] + [vs[n]];
    }
  }

  lemma {:induction false} Group(x: byte, y: byte, z: byte)
    ensures Octet1(Sextet1(x), Sextet2(x, y)) == x
    ensures Octet2(Sextet2(x, y), Sextet3(y, z)) == y
    ensures Octet3(Sextet3(y, z), Sextet4(z)) == z
  {
  }

  lemma {:induction false} FirstOctet(x: byte, y: byte)
    ensures Octet1(Sextet1(x), Sextet2(x, y)) == x
  {
    Group(x, y, y);
  }

  lemma {:induction false} FullGroup(x: byte, y: byte, z: byte, rest: seq<byte>)
    requires Octets(Sextets(rest)) == rest
    ensures Octets(Sextets([x, y, z] + rest)) == [x, y, z] + rest
  {
    Group(x, y, z);
    assert ([x, y, z] + rest)[3..] == rest;
    assert Sextets([x, y, z] + rest)[4..] == Sextets(rest);
  }

  lemma {:induction false} OneByte(x: byte, zero: byte)
    requires zero == 0
    ensures Octets(Sextets([x])) == [x]
  {
    FirstOctet(x, zero);
    TwoSextets(Sextet1(x), Sextet2(x, zero));
    assert Sextets([x]) == [Sextet1(x), Sextet2(x, zero)];
  }

  lemma {:induction false} TwoSextets(a: sextet, b: sextet)
    ensures Octets([a, b]) == [Octet1(a, b)]
  {
    assert |[a, b]| == 2;
  }

  lemma {:induction false} TwoBytes(x: byte, y: byte, zero: byte)
    requires zero == 0
    ensures Octets(Sextets([x, y])) == [x, y]
  {
    Group(x, y, zero);
    assert Sextets([x, y]) == [Sextet1(x), Sextet2(x, y), Sextet3(y, zero)];
  }

  lemma {:induction false} OctetsOfSextets(bs: seq<byte>)
    ensures Octets(Sextets(bs)) == bs
  {
    if |bs| == 1 {
      assert bs == [bs[0]];
      OneByte(bs[0], 0);
    } else if |bs| == 2 {
      assert bs == [bs[0], bs[1]];
      TwoBytes(bs[0], bs[1], 0);
    } else if |bs| > 2 {
      assert bs == [bs[0], bs[1], bs[2]] + bs[3..];
      OctetsOfSextets(bs[3..]);
      FullGroup(bs[0], bs[1], bs[2], bs[3..]);
    }
  }

  lemma {:induction false} SextetsCount(bs: seq<byte>)
    ensures |bs| <= 2 ==> |Sextets(bs)| in {0, 2, 3}
    ensures |bs| > 2 ==> |Sextets(bs)| == |Sextets(bs[3..])| + 4
  {
  }

  lemma {:induction false} FourMore(n: nat)
    ensures (n + 4) % 4 == n % 4
  {
  }

  lemma {:induction false} SextetsLength(bs: seq<byte>)
    ensures |Sextets(bs)| % 4 != 1
  {
    SextetsCount(bs);
    if |bs| > 2 {
      SextetsLength(bs[3..]);
      FourMore(|Sextets(bs[3..])|);
    }
  }

  /** Every byte string survives, and its text uses the alphabet only. */
  lemma {:induction false} Base64RoundTrip(bs: seq<byte>)
    ensures Decode(Encode(bs)) == Some(bs) && '$' !in Encode(bs)
  {
    ValuesOfChars(Sextets(bs));
    OctetsOfSextets(bs);
    SextetsLength(bs);
  }
}
