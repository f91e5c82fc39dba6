/*
 * The text of a Guid, as Guid.ToString() writes it ("D" format: 32
 * lower-case hexadecimal digits in groups 8-4-4-4-12 joined by dashes), and
 * the ordinal case-insensitive string comparison the allow-list uses.
 */
module GuidText {
  import opened Models

  function Pow16(n: nat): (p: nat)
    ensures p >= 1
  {
    if n == 0 then 1 else 16 * Pow16(n - 1)
  }

  function HexDigit(d: nat): (c: char)
    requires d < 16
  {
    if d < 10 then ('0' as int + d) as char else ('a' as int + d - 10) as char
  }

  function DigitValue(c: char): nat {
    if '0' <= c <= '9' then c as int - '0' as int
    else if 'a' <= c <= 'f' then c as int - 'a' as int + 10
    else if 'A' <= c <= 'F' then c as int - 'A' as int + 10
    else 0
  }

  /** The `width` low hexadecimal digits of n, most significant first. */
  function Hex(n: nat, width: nat): (s: string)
    ensures |s| == width
  {
    if width == 0 then [] else Hex(n / 16, width - 1) + [HexDigit(n % 16)]
  }

  /** Reads a string of hexadecimal digits, most significant first. */
  function ParseHex(s: string): nat {
    if s == [] then 0 else ParseHex(s[..|s| - 1]) * 16 + DigitValue(s[|s| - 1])
  }

  lemma {:induction false} ParseHexOfHex(n: nat, width: nat)
    requires n < Pow16(width)
    ensures ParseHex(Hex(n, width)) == n
  {
    if width > 0 {
      var s := Hex(n, width);
      assert s[..|s| - 1] == Hex(n / 16, width - 1);
      assert n / 16 < Pow16(width - 1);
      ParseHexOfHex(n / 16, width - 1);
      assert DigitValue(HexDigit(n % 16)) == n % 16;
    }
  }

  /** Joins 32 digits into the 8-4-4-4-12 groups. */
  function Dashed(h: string): (t: string)
    requires |h| == 32
    ensures |t| == 36
  {
    h[..8] + "-" + h[8..12] + "-" + h[12..16] + "-" + h[16..20] + "-" + h[20..]
  }

  /** Drops the four dashes of a 36-character Guid text. */
  function Undashed(t: string): (h: string)
    requires |t| == 36
  {
    t[..8] + t[9..13] + t[14..18] + t[19..23] + t[24..]
  }

  lemma UndashedOfDashed(h: string)
    requires |h| == 32
    ensures Undashed(Dashed(h)) == h
  {
    var t := Dashed(h);
    assert t[..8] == h[..8];
    assert t[9..13] == h[8..12];
    assert t[14..18] == h[12..16];
    assert t[19..23] == h[16..20];
    assert t[24..] == h[20..];
    assert h == h[..8] + h[8..12] + h[12..16] + h[16..20] + h[20..];
  }

  /** Guid.ToString() */
  function Text(g: Guid): (t: string)
    ensures |t| == 36
  {
    Dashed(Hex(g, 32))
  }

  /** The text is 32 lower-case hexadecimal digits in groups of 8, 4, 4, 4 and 12, joined by dashes. */
  lemma TextFormat(g: Guid)
    ensures forall i :: 0 <= i < 36 ==>
      (Text(g)[i] == '-' <==> i == 8 || i == 13 || i == 18 || i == 23)
    ensures forall i :: 0 <= i < 36 && i != 8 && i != 13 && i != 18 && i != 23 ==>
      '0' <= Text(g)[i] <= '9' || 'a' <= Text(g)[i] <= 'f'
  {
    HexDigits(g, 32);
  }

  /** Every character of Hex(n, width) is a lower-case hexadecimal digit. */
  lemma {:induction false} HexDigits(n: nat, width: nat)
    ensures forall i :: 0 <= i < width ==> '0' <= Hex(n, width)[i] <= '9' || 'a' <= Hex(n, width)[i] <= 'f'
  {
    if width > 0 {
      HexDigits(n / 16, width - 1);
      var h := Hex(n, width);
      assert forall i :: 0 <= i < width - 1 ==> h[i] == Hex(n / 16, width - 1)[i];
    }
  }

  lemma Pow16Is128Bits()
    ensures Pow16(32) == GuidLimit
  {
    assert Pow16(4) == 0x1_0000;
    assert Pow16(8) == 0x1_0000_0000;
    assert Pow16(12) == 0x1_0000_0000_0000;
    assert Pow16(16) == 0x1_0000_0000_0000_0000;
    assert Pow16(20) == 0x1_0000_0000_0000_0000_0000;
    assert Pow16(24) == 0x1_0000_0000_0000_0000_0000_0000;
    assert Pow16(28) == 0x1_0000_0000_0000_0000_0000_0000_0000;
  }

  /** Distinct Guids have distinct texts: the text reads back as the Guid. */
  lemma TextReadsBack(g: Guid)
    ensures ParseHex(Undashed(Text(g))) == g
  {
    Pow16Is128Bits();
    UndashedOfDashed(Hex(g, 32));
    ParseHexOfHex(g, 32);
  }

  lemma TextInjective(a: Guid, b: Guid)
    requires Text(a) == Text(b)
    ensures a == b
  {
    TextReadsBack(a);
    TextReadsBack(b);
  }

  /** Upper-case mapping of the ordinal case-insensitive comparison, on ASCII letters. */
  function UpperAscii(c: char): char {
    if 'a' <= c <= 'z' then (c as int - 32) as char else c
  }

  function UpperText(s: string): (u: string)
    ensures |u| == |s|
    ensures forall i :: 0 <= i < |s| ==> u[i] == UpperAscii(s[i])
  {
    if s == [] then [] else [UpperAscii(s[0])] + UpperText(s[1..])
  }

  /** string.Equals(a, b, StringComparison.OrdinalIgnoreCase) */
  function EqualsIgnoreCase(a: string, b: string): (eq: bool)
    ensures eq <==> |a| == |b| && forall i :: 0 <= i < |a| ==> UpperAscii(a[i]) == UpperAscii(b[i])
    ensures a == b ==> eq
  {
    var ua, ub := UpperText(a), UpperText(b);
    assert |a| == |b| && (forall i :: 0 <= i < |a| ==> UpperAscii(a[i]) == UpperAscii(b[i])) ==> ua == ub;
    ua == ub
  }

  /** Changing the case of letters does not change what a string equals, ignoring case. */
  lemma UpperTextEqualsIgnoreCase(s: string)
    ensures EqualsIgnoreCase(UpperText(s), s)
  {
    var u := UpperText(s);
    assert forall i :: 0 <= i < |s| ==> UpperAscii(UpperAscii(s[i])) == UpperAscii(s[i]);
    assert UpperText(u) == UpperText(s);
  }
}
