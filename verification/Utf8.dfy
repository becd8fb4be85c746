/** What `TextEncoder` and `String(n)` write: UTF-8 over Unicode scalar values, and decimal
    numerals. Both can be read back, so neither merges two inputs. */
module Utf8 {
  import opened Common

  function EncodeChar(c: char): (b: Bytes)
    ensures 1 <= |b| <= 4
  {
    var s := c as int;
    if s < 0x80 then [s]
    else if s < 0x800 then [0xc0 + s / 0x40, 0x80 + s % 0x40]
    else if s < 0x1_0000 then [0xe0 + s / 0x1000, 0x80 + s / 0x40 % 0x40, 0x80 + s % 0x40]
    else [0xf0 + s / 0x4_0000, 0x80 + s / 0x1000 % 0x40, 0x80 + s / 0x40 % 0x40, 0x80 + s % 0x40]
  }

  function Encode(s: string): (b: Bytes)
  {
    if s == "" then [] else EncodeChar(s[0]) + Encode(s[1..])
  }

  /** How long the encoding that starts with byte `b` is. */
  function Width(b: Byte): (w: nat)
  {
    if b < 0x80 then 1 else if b < 0xe0 then 2 else if b < 0xf0 then 3 else 4
  }

  /** The number encoded in the first `w` bytes. */
  function CodePoint(b: Bytes, w: nat): int
    requires 1 <= w <= 4 && w <= |b|
  {
    var lead: int := b[0];
    if w == 1 then lead
    else if w == 2 then (lead - 0xc0) * 0x40 + Low6(b[1])
    else if w == 3 then (lead - 0xe0) * 0x1000 + Low6(b[1]) * 0x40 + Low6(b[2])
    else (lead - 0xf0) * 0x4_0000 + Low6(b[1]) * 0x1000 + Low6(b[2]) * 0x40 + Low6(b[3])
  }

  /** What a continuation byte carries. */
  function Low6(b: int): int
  {
    b - 0x80
  }

  predicate IsScalar(n: int)
  {
    0 <= n < 0xd800 || 0xe000 <= n < 0x11_0000
  }

  /** The decoder: `None` on anything `Encode` does not write. */
  function Decode(b: Bytes): (s: Option<string>)
  {
    if b == [] then Some("")
    else
      var w := Width(b[0]);
      if w > |b| || !IsScalar(CodePoint(b, w)) then None
      else
        match Decode(b[w..])
        case None => None
        case Some(rest) => Some([CodePoint(b, w) as char] + rest)
  }

  lemma {:induction false} CharReads(c: char, rest: Bytes)
    ensures var b := EncodeChar(c) + rest;
            Width(b[0]) == |EncodeChar(c)| && CodePoint(b, Width(b[0])) == c as int
  {
    var s := c as int;
    assert s == s / 0x40 * 0x40 + s % 0x40;
    assert s / 0x40 == s / 0x1000 * 0x40 + s / 0x40 % 0x40;
    assert s / 0x1000 == s / 0x4_0000 * 0x40 + s / 0x1000 % 0x40;
  }

  lemma {:induction false} DecodeEncode(s: string)
    ensures Decode(Encode(s)) == Some(s)
  {
    if s != "" {
      CharReads(s[0], Encode(s[1..]));
      hide CodePoint, Width, EncodeChar;
      var b := Encode(s);
      assert b[|EncodeChar(s[0])|..] == Encode(s[1..]);
      DecodeEncode(s[1..]);
      assert [s[0]] + s[1..] == s;
    }
  }

  /** Two well-formed strings with the same UTF-8 are the same string. */
  lemma {:induction false} EncodeInjective(a: string, b: string)
    requires Encode(a) == Encode(b)
    ensures a == b
  {
    DecodeEncode(a);
    DecodeEncode(b);
  }

  /** One character of each length, as RFC 3629 lays out its bits: a dollar sign, a pound sign, a euro
      sign, and U+10348. */
  lemma {:induction false} EachLengthIsSpelled()
    ensures Encode("$\U{A3}\U{20AC}\U{10348}") == [0x24, 0xc2, 0xa3, 0xe2, 0x82, 0xac, 0xf0, 0x90, 0x8d, 0x88]
  {
    var s := "$\U{A3}\U{20AC}\U{10348}";
    assert EncodeChar(s[3]) == [0xf0, 0x90, 0x8d, 0x88];
    assert EncodeChar(s[2]) == [0xe2, 0x82, 0xac];
    assert EncodeChar(s[1]) == [0xc2, 0xa3];
    assert Encode(s[4..]) == [];
    assert s[3..][1..] == s[4..] && s[2..][1..] == s[3..] && s[1..][1..] == s[2..];
    assert Encode(s[3..]) == [0xf0, 0x90, 0x8d, 0x88];
    assert Encode(s[2..]) == [0xe2, 0x82, 0xac] + Encode(s[3..]);
    assert Encode(s[1..]) == [0xc2, 0xa3] + Encode(s[2..]);
  }

  /** `String(n)` for a natural number. */
  function Decimal(n: nat): (s: string)
    ensures s != ""
  {
    if n < 10 then [Digit(n)] else Decimal(n / 10) + [Digit(n % 10)]
  }

  function Digit(d: nat): char
    requires d < 10
  {
    "0123456789"[d]
  }

  function DigitValue(c: char): (d: Option<nat>)
    ensures d.Some? ==> d.value < 10
  {
    if '0' <= c <= '9' then Some(c as int - '0' as int) else None
  }

  function ReadDecimal(s: string): (n: Option<nat>)
  {
    if s == "" then None
    else
      var d := DigitValue(s[|s| - 1]);
      if d.None? || |s| == 1 then d
      else
        match ReadDecimal(s[..|s| - 1])
        case None => None
        case Some(n) => Some(n * 10 + d.value)
  }

  lemma {:induction false} ReadDecimalDecimal(n: nat)
    ensures ReadDecimal(Decimal(n)) == Some(n)
  {
    var s := Decimal(n);
    DigitReads(n % 10);
    if n >= 10 {
      ReadDecimalDecimal(n / 10);
      assert s[..|s| - 1] == Decimal(n / 10) && s[|s| - 1] == Digit(n % 10);
    }
  }

  lemma {:induction false} DigitReads(d: nat)
    requires d < 10
    ensures DigitValue(Digit(d)) == Some(d)
  {
  }

  /** The digits are the decimal ones, the most significant first. */
  lemma {:induction false} NumeralsAreSpelled(d: nat)
    requires d < 10
    ensures Digit(d) as int == '0' as int + d
    ensures Decimal(120 + d) == "12" + [Digit(d)]
  {
    assert (120 + d) / 10 == 12 && (120 + d) % 10 == d;
    assert Decimal(1) == "1" && Decimal(12) == Decimal(1) + "2";
    hide Digit;
  }
}
