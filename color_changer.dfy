/**
 * Hex colour parsing and printing for the box colours (`colorChanger.ts`):
 * `hexToRgb` with JavaScript's `replace`, `trim`, UTF-16 `length` and
 * `parseInt(_, 16)` spelled out, `rgbToHex` with rounding and clamping, and
 * `lightenHex`, which mixes a colour towards white.
 */
module ColorChanger {
  import opened Wrappers
  import opened Text

  datatype Rgb = Rgb(r: int, g: int, b: int)

  predicate InByteRange(c: Rgb) {
    0 <= c.r <= 255 && 0 <= c.g <= 255 && 0 <= c.b <= 255
  }

  /** `s.replace(c, "")` with a one-character string pattern: only the first
      occurrence is removed. */
  function RemoveFirst(s: string, c: char): (r: string)
    ensures c !in s ==> r == s
    ensures c in s ==> |r| == |s| - 1
  {
    if s == [] then []
    else if s[0] == c then s[1..]
    else [s[0]] + RemoveFirst(s[1..], c)
  }

  /** The character removed is the first `c`, at index `k`: everything
      before it and everything after it is kept. */
  lemma {:induction false} RemoveFirstAt(s: string, c: char, k: nat)
    requires k < |s| && s[k] == c && c !in s[..k]
    ensures RemoveFirst(s, c) == s[..k] + s[k+1..]
  {
    if k == 0 {
      assert s[..0] == [];
    } else {
      assert s[0] in s[..k];
      assert s[1..][..k-1] == s[1..k];
      assert c !in s[1..][..k-1] by {
        assert forall x :: x in s[1..k] ==> x in s[..k];
      }
      RemoveFirstAt(s[1..], c, k - 1);
      assert s[..k] == [s[0]] + s[1..][..k-1];
      assert s[k+1..] == s[1..][k-1+1..];
    }
  }

  // ---------------------------------------------------------------- parseInt

  /** The value of a radix-16 digit code unit. */
  function HexDigit(u: int): (d: Option<int>)
    ensures d.Some? ==> 0 <= d.value < 16
  {
    if '0' as int <= u <= '9' as int then Some(u - '0' as int)
    else if 'a' as int <= u <= 'f' as int then Some(u - 'a' as int + 10)
    else if 'A' as int <= u <= 'F' as int then Some(u - 'A' as int + 10)
    else None
  }

  /** A code unit `parseInt` skips at the start (WhiteSpace or LineTerminator). */
  predicate IsSpaceUnit(u: int) {
    u == 9 || u == 10 || u == 11 || u == 12 || u == 13 || u == 32 || u == 0xA0 || u == 0x1680
    || (0x2000 <= u <= 0x200A) || u == 0x2028 || u == 0x2029 || u == 0x202F || u == 0x205F
    || u == 0x3000 || u == 0xFEFF
  }

  function SkipSpaceUnits(us: seq<int>): (r: seq<int>)
    ensures |r| <= |us|
  {
    if us != [] && IsSpaceUnit(us[0]) then SkipSpaceUnits(us[1..]) else us
  }

  /** The length of the longest prefix made of hex digits. */
  function HexPrefixLength(us: seq<int>): (n: nat)
    ensures n <= |us|
    ensures forall k :: 0 <= k < n ==> HexDigit(us[k]).Some?
    ensures n < |us| ==> HexDigit(us[n]).None?
  {
    if us != [] && HexDigit(us[0]).Some? then 1 + HexPrefixLength(us[1..]) else 0
  }

  /** The number a string of hex digits denotes. */
  function HexValue(us: seq<int>): (v: nat)
    requires forall k :: 0 <= k < |us| ==> HexDigit(us[k]).Some?
  {
    if us == [] then 0
    else HexValue(us[..|us| - 1]) * 16 + HexDigit(us[|us| - 1]).value
  }

  function Pow16(n: nat): (p: nat)
    ensures p >= 1
  {
    if n == 0 then 1 else 16 * Pow16(n - 1)
  }

  lemma {:induction false} HexValueBound(us: seq<int>)
    requires forall k :: 0 <= k < |us| ==> HexDigit(us[k]).Some?
    ensures HexValue(us) < Pow16(|us|)
  {
    if us != [] {
      HexValueBound(us[..|us| - 1]);
    }
  }

  /** `parseInt(s, 16)`: leading spaces skipped, an optional sign, an
      optional `0x`/`0X` prefix, then the longest run of hex digits; `None`
      is NaN (no digit). */
  function ParseIntHex(us: seq<int>): (n: Option<int>)
    ensures n.Some? ==> -(Pow16(|us|) as int) < n.value < Pow16(|us|)
  {
    var s := SkipSpaceUnits(us);
    var negative := s != [] && s[0] == '-' as int;
    var unsigned := if s != [] && (s[0] == '-' as int || s[0] == '+' as int) then s[1..] else s;
    var body := if |unsigned| >= 2 && unsigned[0] == '0' as int && (unsigned[1] == 'x' as int || unsigned[1] == 'X' as int)
                then unsigned[2..] else unsigned;
    var len := HexPrefixLength(body);
    if len == 0 then None
    else
      var digits := body[..len];
      HexValueBound(digits);
      PowMonotone(len, |us|);
      Some(if negative then -(HexValue(digits) as int) else HexValue(digits))
  }

  lemma {:induction false} PowMonotone(a: nat, b: nat)
    requires a <= b
    ensures Pow16(a) <= Pow16(b)
    decreases b
  {
    if a < b {
      PowMonotone(a, b - 1);
    }
  }

  // ---------------------------------------------------------------- hexToRgb

  /** `(n >> 16) & 255`, `(n >> 8) & 255`, `n & 255` for a number that fits
      a signed 32-bit integer: an arithmetic shift is floor division and
      `& 255` the non-negative remainder, which are Dafny's `/` and `%`. */
  function Channels(n: int): (c: Rgb)
    ensures InByteRange(c)
  {
    Rgb((n / 0x1_0000) % 256, (n / 0x100) % 256, n % 256)
  }

  /** Every code unit repeated: `split("").map(c => c + c).join("")`. */
  function Doubled(us: seq<int>): (d: seq<int>)
    ensures |d| == 2 * |us|
    ensures forall k :: 0 <= k < |d| ==> d[k] == us[k / 2]
  {
    if us == [] then [] else [us[0], us[0]] + Doubled(us[1..])
  }

  /** The digit string after the `#` is removed and the rest trimmed. */
  function HexBody(hex: string): seq<int> {
    Utf16(JsTrim(RemoveFirst(hex, '#')))
  }

  /** `hexToRgb`: `None` where the source throws "Invalid hex" (a body whose
      UTF-16 length is neither 3 nor 6); NaN from `parseInt` reads as 0
      under the bit operations. */
  function HexToRgb(hex: string): (c: Option<Rgb>)
    ensures c.None? <==> |HexBody(hex)| != 3 && |HexBody(hex)| != 6
    ensures c.Some? ==> InByteRange(c.value)
  {
    var h := HexBody(hex);
    if |h| != 3 && |h| != 6 then None
    else
      var full := if |h| == 3 then Doubled(h) else h;
      Some(Channels(ParseIntHex(full).GetOr(0)))
  }

  // ---------------------------------------------------------------- rgbToHex

  /** `Math.round`: the nearest integer, halves rounded up. */
  function Round(v: real): int {
    (v + 0.5).Floor
  }

  /** `Math.max(0, Math.min(255, Math.round(v)))`. */
  function ClampChannel(v: real): (c: int)
    ensures 0 <= c <= 255
    ensures 0 <= Round(v) <= 255 ==> c == Round(v)
  {
    var rounded := Round(v);
    if rounded > 255 then 255 else if rounded < 0 then 0 else rounded
  }

  predicate IsLowerHexChar(c: char) {
    '0' <= c <= '9' || 'a' <= c <= 'f'
  }

  /** `toString(16)` of one digit: `0`-`9`, then lower-case `a`-`f`. */
  function DigitChar(d: int): (c: char)
    requires 0 <= d < 16
    ensures IsLowerHexChar(c)
    ensures HexDigit(c as int) == Some(d)
  {
    if d < 10 then ('0' as int + d) as char else ('a' as int + d - 10) as char
  }

  /** `to2`: the clamped channel as two lower-case hex digits, padded with `0`. */
  function To2(v: real): (s: string)
    ensures |s| == 2
  {
    var c := ClampChannel(v);
    [DigitChar(c / 16), DigitChar(c % 16)]
  }

  /** `rgbToHex`: `#` followed by three two-digit lower-case hex pairs. */
  function RgbToHex(r: real, g: real, b: real): (s: string)
    ensures |s| == 7 && s[0] == '#'
    ensures forall k :: 1 <= k < 7 ==> IsLowerHexChar(s[k])
  {
    "#" + To2(r) + To2(g) + To2(b)
  }

  /** The code units `hexToRgb` reads from a printed colour: its six digits. */
  lemma PrintedUnits(r: int, g: int, b: int)
    requires InByteRange(Rgb(r, g, b))
    ensures var s := RgbToHex(r as real, g as real, b as real);
      HexBody(s) == [s[1] as int, s[2] as int, s[3] as int, s[4] as int, s[5] as int, s[6] as int]
  {
    var s := RgbToHex(r as real, g as real, b as real);
    assert RemoveFirst(s, '#') == s[1..];
    var body := s[1..];
    assert forall k :: 0 <= k < |body| ==> IsLowerHexChar(body[k]);
    TrimOfUnpadded(body, IsJsSpace);
    Utf16OfBmp(body);
  }

  /** The printed digits of integer channels. */
  lemma PrintedDigits(r: int, g: int, b: int)
    requires InByteRange(Rgb(r, g, b))
    ensures var s := RgbToHex(r as real, g as real, b as real);
      s[1] == DigitChar(r / 16) && s[2] == DigitChar(r % 16)
      && s[3] == DigitChar(g / 16) && s[4] == DigitChar(g % 16)
      && s[5] == DigitChar(b / 16) && s[6] == DigitChar(b % 16)
  {
    assert Round(r as real) == r && Round(g as real) == g && Round(b as real) == b;
  }

  /** Six hex digits, written out place by place. */
  lemma HexValueOfSix(h: seq<int>)
    requires |h| == 6 && forall k :: 0 <= k < 6 ==> HexDigit(h[k]).Some?
    ensures HexValue(h) == (HexDigit(h[0]).value * 16 + HexDigit(h[1]).value) * 0x1_0000
                         + (HexDigit(h[2]).value * 16 + HexDigit(h[3]).value) * 0x100
                         + HexDigit(h[4]).value * 16 + HexDigit(h[5]).value
  {
    var d0, d1, d2 := HexDigit(h[0]).value, HexDigit(h[1]).value, HexDigit(h[2]).value;
    var d3, d4, d5 := HexDigit(h[3]).value, HexDigit(h[4]).value, HexDigit(h[5]).value;
    assert h[..1][..0] == [];
    assert HexValue(h[..1]) == d0;
    assert h[..2][..1] == h[..1];
    assert HexValue(h[..2]) == d0 * 16 + d1;
    assert h[..3][..2] == h[..2];
    assert HexValue(h[..3]) == (d0 * 16 + d1) * 16 + d2;
    assert h[..4][..3] == h[..3];
    assert HexValue(h[..4]) == ((d0 * 16 + d1) * 16 + d2) * 16 + d3;
    assert h[..5][..4] == h[..4];
    assert HexValue(h[..5]) == (((d0 * 16 + d1) * 16 + d2) * 16 + d3) * 16 + d4;
    assert h[..6] == h && h[..5] == h[..|h| - 1];
  }

  /** A six-digit body parses to the number the digits denote. */
  lemma ParseSixDigits(h: seq<int>)
    requires |h| == 6 && forall k :: 0 <= k < 6 ==> HexDigit(h[k]).Some?
    ensures ParseIntHex(h) == Some(HexValue(h))
  {
    assert SkipSpaceUnits(h) == h;
    assert HexPrefixLength(h[5..]) == 1;
    assert h[4..][1..] == h[5..];
    assert HexPrefixLength(h[4..]) == 2;
    assert h[3..][1..] == h[4..];
    assert HexPrefixLength(h[3..]) == 3;
    assert h[2..][1..] == h[3..];
    assert HexPrefixLength(h[2..]) == 4;
    assert h[1..][1..] == h[2..];
    assert HexPrefixLength(h[1..]) == 5;
    assert HexPrefixLength(h) == 6;
    assert h[..6] == h;
  }

  /** The channels of `r * 2^16 + g * 2^8 + b` are `r`, `g` and `b`. */
  lemma ChannelsOfPacked(r: int, g: int, b: int)
    requires InByteRange(Rgb(r, g, b))
    ensures Channels(r * 0x1_0000 + g * 0x100 + b) == Rgb(r, g, b)
  {
    var n := r * 0x1_0000 + g * 0x100 + b;
    assert n / 0x1_0000 == r;
    assert n / 0x100 == r * 0x100 + g;
  }

  /** Six digits holding the hex pairs of `r`, `g` and `b` parse back to them. */
  lemma PackedDigits(h: seq<int>, r: int, g: int, b: int)
    requires InByteRange(Rgb(r, g, b))
    requires |h| == 6 && forall k :: 0 <= k < 6 ==> HexDigit(h[k]).Some?
    requires HexDigit(h[0]).value == r / 16 && HexDigit(h[1]).value == r % 16
    requires HexDigit(h[2]).value == g / 16 && HexDigit(h[3]).value == g % 16
    requires HexDigit(h[4]).value == b / 16 && HexDigit(h[5]).value == b % 16
    ensures Channels(ParseIntHex(h).GetOr(0)) == Rgb(r, g, b)
  {
    HexValueOfSix(h);
    ParseSixDigits(h);
    assert HexValue(h) == r * 0x1_0000 + g * 0x100 + b;
    ChannelsOfPacked(r, g, b);
  }

  /** Reading back a printed colour gives the channels that were printed. */
  lemma RoundTrip(r: int, g: int, b: int)
    requires InByteRange(Rgb(r, g, b))
    ensures HexToRgb(RgbToHex(r as real, g as real, b as real)) == Some(Rgb(r, g, b))
  {
    var s := RgbToHex(r as real, g as real, b as real);
    PrintedUnits(r, g, b);
    PrintedDigits(r, g, b);
    var h := HexBody(s);
    assert h[0] == s[1] as int && h[1] == s[2] as int && h[2] == s[3] as int;
    assert h[3] == s[4] as int && h[4] == s[5] as int && h[5] == s[6] as int;
    PackedDigits(h, r, g, b);
  }

  /** Three doubled digits parse to the channels `17 * digit`. */
  lemma DoubledDigits(h: seq<int>)
    requires |h| == 3 && forall k :: 0 <= k < 3 ==> HexDigit(h[k]).Some?
    ensures Channels(ParseIntHex(Doubled(h)).GetOr(0))
         == Rgb(17 * HexDigit(h[0]).value, 17 * HexDigit(h[1]).value, 17 * HexDigit(h[2]).value)
  {
    var full := Doubled(h);
    var d0, d1, d2 := HexDigit(h[0]).value, HexDigit(h[1]).value, HexDigit(h[2]).value;
    assert full[0] == h[0] && full[1] == h[0];
    assert full[2] == h[1] && full[3] == h[1];
    assert full[4] == h[2] && full[5] == h[2];
    SeventeenTimes(d0);
    SeventeenTimes(d1);
    SeventeenTimes(d2);
    PackedDigits(full, 17 * d0, 17 * d1, 17 * d2);
  }

  /** A doubled digit `dd` is the byte `17 * d`. */
  lemma SeventeenTimes(d: int)
    requires 0 <= d < 16
    ensures 0 <= 17 * d <= 255 && (17 * d) / 16 == d && (17 * d) % 16 == d
  {
    assert 17 * d == 16 * d + d;
  }

  /** The three-digit form reads like the six-digit form with every digit
      doubled: each channel is its digit times 17. */
  lemma ShortFormDoubles(hex: string)
    requires |HexBody(hex)| == 3 && forall k :: 0 <= k < 3 ==> HexDigit(HexBody(hex)[k]).Some?
    ensures var h := HexBody(hex);
      HexToRgb(hex) == Some(Rgb(17 * HexDigit(h[0]).value, 17 * HexDigit(h[1]).value, 17 * HexDigit(h[2]).value))
  {
    DoubledDigits(HexBody(hex));
  }

  /** `#abc` reads as `#aabbcc`. */
  lemma ShortFormExample()
    ensures HexToRgb("#abc") == Some(Rgb(0xaa, 0xbb, 0xcc))
  {
    assert RemoveFirst("#abc", '#') == "abc";
    TrimOfUnpadded("abc", IsJsSpace);
    Utf16OfBmp("abc");
    assert HexBody("#abc") == [97, 98, 99];
    ShortFormDoubles("#abc");
  }

  /** A body of the wrong length throws. */
  lemma WrongLengthThrows()
    ensures HexToRgb("#abcd") == None
  {
    assert RemoveFirst("#abcd", '#') == "abcd";
    TrimOfUnpadded("abcd", IsJsSpace);
    Utf16OfBmp("abcd");
  }

  // ---------------------------------------------------------------- lightenHex

  /** `Math.max(0, Math.min(1, amount))`. */
  function ClampAmount(amount: real): (a: real)
    ensures 0.0 <= a <= 1.0
  {
    if amount > 1.0 then 1.0 else if amount < 0.0 then 0.0 else amount
  }

  /** A channel moved towards 255 by the fraction `a`. */
  function Lighten(c: int, a: real): real {
    c as real + (255 - c) as real * a
  }

  /** `lightenHex`: `None` where `hexToRgb` throws. */
  function LightenHex(hex: string, amount: real): (out: Option<string>)
    ensures out.None? <==> HexToRgb(hex).None?
  {
    match HexToRgb(hex)
    case None => None
    case Some(c) =>
      var a := ClampAmount(amount);
      Some(RgbToHex(Lighten(c.r, a), Lighten(c.g, a), Lighten(c.b, a)))
  }

  /** Printing a real channel is printing its rounded, clamped value. */
  lemma To2OfClamped(v: real)
    ensures To2(v) == To2(ClampChannel(v) as real)
  {
    var c := ClampChannel(v);
    assert Round(c as real) == c;
  }

  /** A lightened channel rounds to a value between the channel and 255. */
  lemma LightenedChannelBetween(c: int, a: real)
    requires 0 <= c <= 255 && 0.0 <= a <= 1.0
    ensures c <= ClampChannel(Lighten(c, a)) <= 255
  {
    assert (255 - c) as real * a >= 0.0;
    assert (255 - c) as real * a <= (255 - c) as real;
  }

  /** Every channel of the lightened colour lies between the input channel
      and 255; an amount of 0 (or less) gives the input colour back, an
      amount of 1 (or more) gives white. */
  lemma LightenBounds(hex: string, amount: real)
    requires HexToRgb(hex).Some?
    ensures var c := HexToRgb(hex).value;
      var out := HexToRgb(LightenHex(hex, amount).value);
      out.Some?
      && c.r <= out.value.r <= 255 && c.g <= out.value.g <= 255 && c.b <= out.value.b <= 255
      && (amount <= 0.0 ==> out.value == c)
      && (amount >= 1.0 ==> out.value == Rgb(255, 255, 255))
  {
    var c := HexToRgb(hex).value;
    var a := ClampAmount(amount);
    var nr := ClampChannel(Lighten(c.r, a));
    var ng := ClampChannel(Lighten(c.g, a));
    var nb := ClampChannel(Lighten(c.b, a));
    LightenedChannelBetween(c.r, a);
    LightenedChannelBetween(c.g, a);
    LightenedChannelBetween(c.b, a);
    To2OfClamped(Lighten(c.r, a));
    To2OfClamped(Lighten(c.g, a));
    To2OfClamped(Lighten(c.b, a));
    assert LightenHex(hex, amount).value == RgbToHex(nr as real, ng as real, nb as real);
    RoundTrip(nr, ng, nb);
    if amount <= 0.0 {
      assert Lighten(c.r, a) == c.r as real && Lighten(c.g, a) == c.g as real && Lighten(c.b, a) == c.b as real;
    }
    if amount >= 1.0 {
      assert Lighten(c.r, a) == 255.0 && Lighten(c.g, a) == 255.0 && Lighten(c.b, a) == 255.0;
    }
  }
}
