/**
 * `Color`: red, green and blue channels, an alpha kept in [0, 1] by its
 * setter, and the conversions from a "#rrggbb" string and to a
 * "#rrggbbaa" string.
 *
 * A channel is a JavaScript number that `parseInt` may have made NaN; the
 * model keeps channels as integers or NaN (`toString(16)` of a fractional
 * channel is not modelled) and the alpha as a real.
 */
module Colors {
  /** A colour channel: an integer, or the NaN `parseInt` returns for a string with no hex digit. */
  datatype Channel = Int(n: int) | NaN

  /** A colour value, as `hexToRgb` returns it. */
  datatype Rgba = Rgba(r: Channel, g: Channel, b: Channel, a: real)

  predicate IsHexDigit(c: char)
  {
    '0' <= c <= '9' || 'a' <= c <= 'f' || 'A' <= c <= 'F'
  }

  predicate IsLowerHexDigit(c: char)
  {
    '0' <= c <= '9' || 'a' <= c <= 'f'
  }

  function DigitValue(c: char): (v: nat)
    requires IsHexDigit(c)
    ensures v < 16
  {
    if '0' <= c <= '9' then c as int - '0' as int
    else if 'a' <= c <= 'f' then c as int - 'a' as int + 10
    else c as int - 'A' as int + 10
  }

  /** The lower-case digit `toString(16)` writes for a value below 16. */
  function Digit(v: nat): (c: char)
    requires v < 16
    ensures IsLowerHexDigit(c) && DigitValue(c) == v
  {
    if v < 10 then (v + '0' as int) as char else (v - 10 + 'a' as int) as char
  }

  lemma DigitOfValue(c: char)
    requires IsLowerHexDigit(c)
    ensures Digit(DigitValue(c)) == c
  {
  }

  /** `n.toString(16)` for a non-negative integer: lower-case digits, no leading zero. */
  function HexDigits(n: nat): (s: string)
    ensures 1 <= |s|
    ensures forall i :: 0 <= i < |s| ==> IsLowerHexDigit(s[i])
    ensures n < 16 <==> |s| == 1
    ensures n < 256 ==> |s| <= 2
  {
    if n < 16 then [Digit(n)] else HexDigits(n / 16) + [Digit(n % 16)]
  }

  /** The value of a string of hex digits, most significant first. */
  function HexValue(s: string): nat
    requires forall i :: 0 <= i < |s| ==> IsHexDigit(s[i])
  {
    if |s| == 0 then 0 else HexValue(s[..|s| - 1]) * 16 + DigitValue(s[|s| - 1])
  }

  /** Reading the digits `toString(16)` wrote gives the number back. */
  lemma {:induction false} HexValueOfDigits(n: nat)
    ensures HexValue(HexDigits(n)) == n
  {
    if n >= 16 {
      var s := HexDigits(n);
      assert s[..|s| - 1] == HexDigits(n / 16);
      HexValueOfDigits(n / 16);
    }
  }

  /** The longest prefix of hex digits. */
  function HexPrefix(s: string): (p: string)
    ensures |p| <= |s| && p == s[..|p|]
    ensures forall i :: 0 <= i < |p| ==> IsHexDigit(p[i])
    ensures |p| < |s| ==> !IsHexDigit(s[|p|])
  {
    if |s| == 0 || !IsHexDigit(s[0]) then [] else [s[0]] + HexPrefix(s[1..])
  }

  /**
   * `parseInt(s, 16)` for a string without leading white space: an optional
   * sign, an optional "0x"/"0X", then the longest run of hex digits; NaN
   * when that run is empty.
   */
  function ParseHex(s: string): (c: Channel)
    ensures c.NaN? <==> |HexPrefix(HexBody(s))| == 0
  {
    var negative := |s| > 0 && s[0] == '-';
    var digits := HexPrefix(HexBody(s));
    if |digits| == 0 then NaN
    else if negative then Int(-(HexValue(digits) as int))
    else Int(HexValue(digits))
  }

  /** What `parseInt` reads digits from: the string without its sign and its "0x"/"0X" prefix. */
  function HexBody(s: string): (body: string)
    ensures |body| <= |s|
  {
    var unsigned := if |s| > 0 && (s[0] == '-' || s[0] == '+') then s[1..] else s;
    if |unsigned| >= 2 && unsigned[0] == '0' && (unsigned[1] == 'x' || unsigned[1] == 'X') then unsigned[2..] else unsigned
  }

  /** A non-empty string of hex digits, other than "0x…", is read as the number it spells. */
  lemma ParseHexOfDigits(s: string)
    requires 0 < |s| && forall i :: 0 <= i < |s| ==> IsHexDigit(s[i])
    requires !(|s| >= 2 && s[0] == '0' && (s[1] == 'x' || s[1] == 'X'))
    ensures ParseHex(s) == Int(HexValue(s))
  {
    HexBodyOfDigits(s);
    HexPrefixOfDigits(s);
    assert s[0] != '-' by { assert IsHexDigit(s[0]); }
  }

  lemma HexBodyOfDigits(s: string)
    requires 0 < |s| && IsHexDigit(s[0])
    requires !(|s| >= 2 && s[0] == '0' && (s[1] == 'x' || s[1] == 'X'))
    ensures HexBody(s) == s
  {
  }

  lemma {:induction false} HexPrefixOfDigits(s: string)
    requires forall i :: 0 <= i < |s| ==> IsHexDigit(s[i])
    ensures HexPrefix(s) == s
  {
    if |s| > 0 {
      HexPrefixOfDigits(s[1..]);
    }
  }

  /** `String.prototype.substring(start, end)` for `start <= end`: both ends are clamped to the length. */
  function Substring(s: string, start: nat, end: nat): (r: string)
    requires start <= end
    ensures end <= |s| ==> r == s[start..end]
  {
    var i := if start <= |s| then start else |s|;
    var j := if end <= |s| then end else |s|;
    s[i..j]
  }

  /** `s.replace('#', '')` with a string pattern: only the first '#' is removed. */
  function RemoveFirstHash(s: string): (r: string)
    ensures '#' !in s ==> r == s
    ensures |s| > 0 && s[0] == '#' ==> r == s[1..]
  {
    if |s| == 0 then s
    else if s[0] == '#' then s[1..]
    else [s[0]] + RemoveFirstHash(s[1..])
  }

  /** `hexToRgb`: three two-character fields parsed as base-16 channels, alpha 1. */
  function HexToRgb(hex: string): (c: Rgba)
    ensures c.a == 1.0
  {
    var h := RemoveFirstHash(hex);
    Rgba(ParseHex(Substring(h, 0, 2)), ParseHex(Substring(h, 2, 4)), ParseHex(Substring(h, 4, 6)), 1.0)
  }

  /** `Math.round`: halves round up. */
  function Round(x: real): int
  {
    (x + 0.5).Floor
  }

  /** `number.toString(16)` of a channel. */
  function ChannelToHex(c: Channel): string
  {
    match c
    case NaN => "NaN"
    case Int(n) => if n < 0 then "-" + HexDigits(-n) else HexDigits(n)
  }

  /** The zero-padding of `rgbaToHex`: a one-character field gets a leading "0". */
  function Pad(s: string): (r: string)
    ensures |s| == 1 ==> |r| == 2 && r[1] == s[0] && r[0] == '0'
    ensures |s| != 1 ==> r == s
  {
    if |s| == 1 then "0" + s else s
  }

  lemma DivMod16(a: nat, b: nat)
    requires b < 16
    ensures (a * 16 + b) / 16 == a && (a * 16 + b) % 16 == b
  {
  }

  /** The value of two hex digits. */
  lemma HexValueOfPair(d: string)
    requires |d| == 2 && IsHexDigit(d[0]) && IsHexDigit(d[1])
    ensures HexValue(d) == DigitValue(d[0]) * 16 + DigitValue(d[1])
  {
    assert d[..1][..0] == [];
    assert d[..1][0] == d[0];
    assert HexValue(d[..1]) == DigitValue(d[0]);
  }

  /** A channel between 0 and 255 is written as two lower-case hex digits. */
  lemma PaddedByteShape(n: nat)
    requires n < 256
    ensures |Pad(HexDigits(n))| == 2
    ensures IsLowerHexDigit(Pad(HexDigits(n))[0]) && IsLowerHexDigit(Pad(HexDigits(n))[1])
  {
  }

  /** A channel between 0 and 255 is written as two lower-case hex digits that read back as it. */
  lemma PaddedByte(n: nat)
    requires n < 256
    ensures |Pad(HexDigits(n))| == 2
    ensures IsLowerHexDigit(Pad(HexDigits(n))[0]) && IsLowerHexDigit(Pad(HexDigits(n))[1])
    ensures ParseHex(Pad(HexDigits(n))) == Int(n)
  {
    PaddedByteShape(n);
    HexValueOfDigits(n);
    var p := Pad(HexDigits(n));
    if n < 16 {
      HexValueOfPair(p);
      assert HexValue(p) == n;
    } else {
      assert p == HexDigits(n);
    }
    ParseHexOfDigits(p);
  }

  /** `rgbaToHex`: "#", then each channel and `round(a * 255)` in padded lower-case hex. */
  function RgbaToHex(c: Rgba): string
  {
    "#" + Pad(ChannelToHex(c.r)) + Pad(ChannelToHex(c.g)) + Pad(ChannelToHex(c.b)) + AlphaHex(c.a)
  }

  /** The last field of `rgbaToHex`: the alpha scaled to 0..255, rounded, in padded hex. */
  function AlphaHex(a: real): string
  {
    Pad(ChannelToHex(Int(Round(a * 255.0))))
  }

  /** A channel that is a non-negative integer is written without a sign. */
  lemma ChannelHexOfNat(n: nat)
    ensures ChannelToHex(Int(n)) == HexDigits(n)
  {
  }

  /** `hexToRgb` of "#" followed by three two-character fields and anything else reads the three fields. */
  lemma HexToRgbOfFields(p1: string, p2: string, p3: string, rest: string)
    requires |p1| == 2 && |p2| == 2 && |p3| == 2
    ensures HexToRgb("#" + p1 + p2 + p3 + rest) == Rgba(ParseHex(p1), ParseHex(p2), ParseHex(p3), 1.0)
  {
    var h := p1 + p2 + p3 + rest;
    assert "#" + p1 + p2 + p3 + rest == "#" + h;
    assert RemoveFirstHash("#" + h) == h;
    assert h[0..2] == p1 && h[2..4] == p2 && h[4..6] == p3;
  }

  /** Three two-digit fields after a '#' fill positions 1 to 6 with digits. */
  lemma FieldsShape(p1: string, p2: string, p3: string, rest: string)
    requires |p1| == 2 && |p2| == 2 && |p3| == 2
    requires IsLowerHexDigit(p1[0]) && IsLowerHexDigit(p1[1])
    requires IsLowerHexDigit(p2[0]) && IsLowerHexDigit(p2[1])
    requires IsLowerHexDigit(p3[0]) && IsLowerHexDigit(p3[1])
    ensures var s := "#" + p1 + p2 + p3 + rest;
      |s| >= 7 && s[0] == '#' && forall i :: 1 <= i < 7 ==> IsLowerHexDigit(s[i])
  {
    var s := "#" + p1 + p2 + p3 + rest;
    assert s[1] == p1[0] && s[2] == p1[1];
    assert s[3] == p2[0] && s[4] == p2[1];
    assert s[5] == p3[0] && s[6] == p3[1];
  }

  /** Channels in 0..255 are written as exactly two lower-case hex digits each, after the '#'. */
  lemma RgbaToHexShape(r: nat, g: nat, b: nat, a: real)
    requires r < 256 && g < 256 && b < 256
    ensures var s := RgbaToHex(Rgba(Int(r), Int(g), Int(b), a));
      |s| >= 7 && s[0] == '#' && forall i :: 1 <= i < 7 ==> IsLowerHexDigit(s[i])
  {
    PaddedByteShape(r);
    PaddedByteShape(g);
    PaddedByteShape(b);
    ChannelHexOfNat(r);
    ChannelHexOfNat(g);
    ChannelHexOfNat(b);
    var p1, p2, p3 := Pad(HexDigits(r)), Pad(HexDigits(g)), Pad(HexDigits(b));
    var rest := AlphaHex(a);
    assert RgbaToHex(Rgba(Int(r), Int(g), Int(b), a)) == "#" + p1 + p2 + p3 + rest;
    FieldsShape(p1, p2, p3, rest);
  }

  /** Parsing the hex string of a colour with channels in 0..255 gives the channels back, with alpha 1. */
  lemma HexRoundTrip(r: nat, g: nat, b: nat, a: real)
    requires r < 256 && g < 256 && b < 256
    ensures HexToRgb(RgbaToHex(Rgba(Int(r), Int(g), Int(b), a))) == Rgba(Int(r), Int(g), Int(b), 1.0)
  {
    PaddedByte(r);
    PaddedByte(g);
    PaddedByte(b);
    ChannelHexOfNat(r);
    ChannelHexOfNat(g);
    ChannelHexOfNat(b);
    var p1, p2, p3 := Pad(HexDigits(r)), Pad(HexDigits(g)), Pad(HexDigits(b));
    var rest := AlphaHex(a);
    assert RgbaToHex(Rgba(Int(r), Int(g), Int(b), a)) == "#" + p1 + p2 + p3 + rest;
    HexToRgbOfFields(p1, p2, p3, rest);
  }

  /** Two lower-case hex digits are parsed and written back unchanged. */
  lemma PairWrittenBack(d: string)
    requires |d| == 2 && IsLowerHexDigit(d[0]) && IsLowerHexDigit(d[1])
    ensures Pad(ChannelToHex(ParseHex(d))) == d
  {
    DigitOfValue(d[0]);
    DigitOfValue(d[1]);
    HexValueOfPair(d);
    ParseHexOfDigits(d);
    var v := HexValue(d);
    DivMod16(DigitValue(d[0]), DigitValue(d[1]));
    if DigitValue(d[0]) == 0 {
      assert d[0] == '0';
      assert HexDigits(v) == [d[1]];
    } else {
      assert HexDigits(v) == [d[0], d[1]];
    }
  }

  /** A "#rrggbb" string of lower-case digits is written back unchanged, followed by "ff" for alpha 1. */
  lemma RgbRoundTrip(s: string)
    requires |s| == 7 && s[0] == '#' && forall i :: 1 <= i < 7 ==> IsLowerHexDigit(s[i])
    ensures RgbaToHex(HexToRgb(s)) == s + "ff"
  {
    var p1, p2, p3 := s[1..3], s[3..5], s[5..7];
    SplitFields(s);
    HexToRgbOfFields(p1, p2, p3, []);
    PairWrittenBack(p1);
    PairWrittenBack(p2);
    PairWrittenBack(p3);
    OpaqueAlphaHex();
  }

  lemma SplitFields(s: string)
    requires |s| == 7 && s[0] == '#'
    ensures s == "#" + s[1..3] + s[3..5] + s[5..7] + []
  {
  }

  /** Alpha 1 is written as "ff". */
  lemma OpaqueAlphaHex()
    ensures AlphaHex(1.0) == "ff"
  {
    assert Round(1.0 * 255.0) == 255;
    assert HexDigits(255) == HexDigits(15) + [Digit(15)];
  }

  /** The alpha setter: below 0 stores 0, above 1 stores 1, anything else as given. */
  function ClampAlpha(a: real): (r: real)
    ensures 0.0 <= r <= 1.0
    ensures 0.0 <= a <= 1.0 ==> r == a
    ensures a < 0.0 ==> r == 0.0
    ensures a > 1.0 ==> r == 1.0
  {
    if a < 0.0 then 0.0 else if a > 1.0 then 1.0 else a
  }

  /** Clamping twice is clamping once. */
  lemma ClampAlphaIdempotent(a: real)
    ensures ClampAlpha(ClampAlpha(a)) == ClampAlpha(a)
  {
  }

  class Color {
    var r: Channel
    var g: Channel
    var b: Channel
    /** `_a`, written unclamped by the constructor and clamped by the setter. */
    var alpha: real

    /** The constructor's defaults are white, opaque; the given alpha is not clamped. */
    constructor (r0: Channel := Int(255), g0: Channel := Int(255), b0: Channel := Int(255), a0: real := 1.0)
      ensures r == r0 && g == g0 && b == b0 && alpha == a0
    {
      r, g, b, alpha := r0, g0, b0, a0;
    }

    function Value(): Rgba
      reads this
    {
      Rgba(r, g, b, alpha)
    }

    /** The `a` setter. */
    method SetA(a: real)
      modifies this
      ensures alpha == ClampAlpha(a)
      ensures r == old(r) && g == old(g) && b == old(b)
    {
      if a < 0.0 {
        alpha := 0.0;
      } else if a > 1.0 {
        alpha := 1.0;
      } else {
        alpha := a;
      }
    }

    /** The `hex` setter: all four fields come from `hexToRgb`, so alpha becomes 1. */
    method SetHex(hex: string)
      modifies this
      ensures Value() == HexToRgb(hex) && alpha == 1.0
    {
      var color := HexToRgb(hex);
      r, g, b, alpha := color.r, color.g, color.b, color.a;
    }

    /** The `hex` getter. */
    function GetHex(): (s: string)
      reads this
      ensures s == RgbaToHex(Value())
    {
      RgbaToHex(Rgba(r, g, b, alpha))
    }

    /** `setRgba`: channels copied, alpha through the clamping setter. */
    method SetRgba(color: Color)
      modifies this
      ensures r == old(color.r) && g == old(color.g) && b == old(color.b)
      ensures alpha == ClampAlpha(old(color.alpha))
    {
      var ca := color.alpha;
      r := color.r;
      g := color.g;
      b := color.b;
      SetA(ca);
    }
  }
}
