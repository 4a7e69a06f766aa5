/** Brand colours, internal/config/branding.go:15-232. A string is its bytes; ratios are
    exact reals and the power in the luminance curve is a parameter. */
module Palette {
  import opened Options

  type Byte = x: int | 0 <= x < 256

  datatype Color = Color(r: Byte, g: Byte, b: Byte)

  const BLACK := Color(0, 0, 0)
  const WHITE := Color(255, 255, 255)
  const DARK_THEME_SURFACE := "#1a1a24"
  const LIGHT_THEME_SURFACE := "#f6f8fb"

  // ----- hexadecimal -----

  function HexDigit(n: int): char
    requires 0 <= n < 16
  {
    if n < 10 then '0' + n as char else 'a' + (n - 10) as char
  }

  function DigitValue(c: char): Option<int> {
    if '0' <= c <= '9' then Some((c - '0') as int)
    else if 'a' <= c <= 'f' then Some((c - 'a') as int + 10)
    else if 'A' <= c <= 'F' then Some((c - 'A') as int + 10)
    else None
  }

  function LowerChar(c: char): char { if 'A' <= c <= 'Z' then c - 'A' + 'a' else c }

  lemma DigitRoundTrip(n: int)
    requires 0 <= n < 16
    ensures DigitValue(HexDigit(n)) == Some(n)
  {
  }

  lemma DigitValueInRange(c: char)
    requires DigitValue(c).Some?
    ensures 0 <= DigitValue(c).value < 16 && HexDigit(DigitValue(c).value) == LowerChar(c)
  {
  }

  /** Digits count in letters of either case. */
  lemma DigitsOfEitherCase(c: char, n: int)
    requires 0 <= n < 16
    ensures DigitValue(c) == Some(n) <==> c == HexDigit(n) || ('A' <= c <= 'F' && n == (c - 'A') as int + 10)
  {
  }

  function ParseUint(digits: string): (n: Option<nat>)
    ensures n.Some? <==> forall i | 0 <= i < |digits| :: DigitValue(digits[i]).Some?
  {
    if digits == "" then Some(0)
    else
      var high, low := ParseUint(digits[..|digits| - 1]), DigitValue(digits[|digits| - 1]);
      if high.None? || low.None? then None else Some(16 * high.value + low.value)
  }

  function HexByte(x: Byte): string { [HexDigit(x / 16), HexDigit(x % 16)] }

  function Hex(c: Color): string { "#" + HexByte(c.r) + HexByte(c.g) + HexByte(c.b) }

  function ParseHexColor(value: string): Option<Color> {
    if |value| != 7 || value[0] != '#' then None
    else
      var parsed := ParseUint(value[1..]);
      if parsed.None? then None
      else Some(Color(parsed.value / 65536 % 256, parsed.value / 256 % 256, parsed.value % 256))
  }

  function PairValue(a: char, b: char): int
    requires DigitValue(a).Some? && DigitValue(b).Some?
  {
    16 * DigitValue(a).value + DigitValue(b).value
  }

  lemma LastPair(d: string)
    requires |d| >= 2 && ParseUint(d).Some?
    ensures var n := |d|; var front := d[..n - 2];
            && DigitValue(d[n - 2]).Some? && DigitValue(d[n - 1]).Some? && ParseUint(front).Some?
            && ParseUint(d).value == 256 * ParseUint(front).value + PairValue(d[n - 2], d[n - 1])
  {
    var n := |d|;
    assert d[..n - 1][..n - 2] == d[..n - 2];
    assert ParseUint(d[..n - 1]).value == 16 * ParseUint(d[..n - 2]).value + DigitValue(d[n - 2]).value;
  }

  lemma SixDigits(d: string)
    requires |d| == 6 && ParseUint(d).Some?
    ensures forall i | 0 <= i < 6 :: DigitValue(d[i]).Some?
    ensures ParseUint(d).value == 65536 * PairValue(d[0], d[1]) + 256 * PairValue(d[2], d[3]) + PairValue(d[4], d[5])
  {
    hide ParseUint;
    var d4, d2 := d[..4], d[..2];
    assert d4[..2] == d2 && d2[..0] == "";
    LastPair(d);
    LastPair(d4);
    LastPair(d2);
    NoDigits();
    assert d[0] == d2[0] && d[1] == d2[1] && d[2] == d4[2] && d[3] == d4[3];
  }

  lemma NoDigits()
    ensures ParseUint("") == Some(0)
  {
  }

  lemma ChannelsOf(r: Byte, g: Byte, b: Byte)
    ensures var n := 65536 * r + 256 * g + b; n / 65536 % 256 == r && n / 256 % 256 == g && n % 256 == b
  {
    var n, low := 65536 * r + 256 * g + b, 256 * g + b;
    assert n / 65536 == r && n / 256 == 256 * r + g && n % 256 == b by {
      assert n == 65536 * r + low && 0 <= low < 65536;
    }
    assert (256 * r + g) % 256 == g;
  }

  /** A colour parses exactly when it is '#' and six hexadecimal digits, and each
      channel is its own two digits. */
  lemma ParsesDigitPairs(s: string)
    ensures ParseHexColor(s).Some? <==> |s| == 7 && s[0] == '#' && forall i | 1 <= i < 7 :: DigitValue(s[i]).Some?
    ensures ParseHexColor(s).Some? ==>
              && (forall i | 1 <= i < 7 :: DigitValue(s[i]).Some?)
              && 0 <= PairValue(s[1], s[2]) < 256 && 0 <= PairValue(s[3], s[4]) < 256
                    && 0 <= PairValue(s[5], s[6]) < 256
              && ParseHexColor(s).value == Color(PairValue(s[1], s[2]), PairValue(s[3], s[4]), PairValue(s[5], s[6]))
  {
    if |s| == 7 && s[0] == '#' {
      var d := s[1..];
      assert forall i | 1 <= i < 7 :: s[i] == d[i - 1];
      if ParseUint(d).Some? {
        SixDigits(d);
        forall i | 1 <= i < 7
          ensures DigitValue(s[i]).Some? && 0 <= DigitValue(s[i]).value < 16
        {
          DigitValueInRange(d[i - 1]);
        }
        ChannelsOf(PairValue(d[0], d[1]), PairValue(d[2], d[3]), PairValue(d[4], d[5]));
      }
    }
  }

  lemma HexByteRoundTrip(x: Byte)
    ensures DigitValue(HexByte(x)[0]).Some? && DigitValue(HexByte(x)[1]).Some?
    ensures PairValue(HexByte(x)[0], HexByte(x)[1]) == x
  {
    DigitRoundTrip(x / 16);
    DigitRoundTrip(x % 16);
  }

  /** Parsing inverts writing, for every colour. */
  lemma ParseInvertsHex(c: Color)
    ensures ParseHexColor(Hex(c)) == Some(c)
  {
    var s := Hex(c);
    HexByteRoundTrip(c.r);
    HexByteRoundTrip(c.g);
    HexByteRoundTrip(c.b);
    assert s[1] == HexByte(c.r)[0] && s[2] == HexByte(c.r)[1] && s[3] == HexByte(c.g)[0];
    assert s[4] == HexByte(c.g)[1] && s[5] == HexByte(c.b)[0] && s[6] == HexByte(c.b)[1];
    ParsesDigitPairs(s);
  }

  function Lower(s: string): string { seq(|s|, i requires 0 <= i < |s| => LowerChar(s[i])) }

  lemma HexOfPair(a: char, b: char)
    requires DigitValue(a).Some? && DigitValue(b).Some?
    ensures 0 <= PairValue(a, b) < 256 && HexByte(PairValue(a, b)) == [LowerChar(a), LowerChar(b)]
  {
    DigitValueInRange(a);
    DigitValueInRange(b);
  }

  /** Writing a parsed colour is lower-casing what was parsed. */
  lemma HexOfParsedIsLower(s: string)
    requires ParseHexColor(s).Some?
    ensures Hex(ParseHexColor(s).value) == Lower(s)
  {
    ParsesDigitPairs(s);
    HexOfPair(s[1], s[2]);
    HexOfPair(s[3], s[4]);
    HexOfPair(s[5], s[6]);
  }

  // ----- mixing -----

  /** Rounding half away from zero, for what is not negative. */
  function Round(x: real): int
    requires x >= 0.0
  {
    (x + 0.5).Floor
  }

  predicate Between(x: int, a: int, b: int) { a <= x <= b || b <= x <= a }

  function Blend(base: real, target: real, weight: real): real {
    base * (1.0 - weight) + target * weight
  }

  lemma BlendIsBetween(base: real, target: real, weight: real)
    requires 0.0 <= weight <= 1.0
    ensures if base <= target then base <= Blend(base, target, weight) <= target
            else target <= Blend(base, target, weight) <= base
  {
    hide Blend, Part;
    var d := target - base;
    PartOf(d, weight);
    BlendIsAShift(base, target, d, weight);
  }

  function Part(d: real, weight: real): real { d * weight }

  lemma BlendIsAShift(base: real, target: real, d: real, weight: real)
    requires d == target - base
    ensures Blend(base, target, weight) == base + Part(d, weight)
  {
  }

  lemma PartOf(d: real, weight: real)
    requires 0.0 <= weight <= 1.0
    ensures if d >= 0.0 then 0.0 <= Part(d, weight) <= d else d <= Part(d, weight) <= 0.0
  {
  }

  lemma ChannelStaysBetween(base: Byte, target: Byte, weight: real)
    requires 0.0 <= weight <= 1.0
    ensures var blend := Blend(base as real, target as real, weight);
            && blend >= 0.0
            && Between(Round(blend), base, target)
            && 0 <= Round(blend) < 256
            && -0.5 < Round(blend) as real - blend <= 0.5
  {
    hide Blend, Round;
    BlendIsBetween(base as real, target as real, weight);
    var blend := Blend(base as real, target as real, weight);
    if base <= target { RoundStaysBetween(blend, base, target); } else { RoundStaysBetween(blend, target, base); }
  }

  lemma RoundStaysBetween(x: real, low: int, high: int)
    requires 0 <= low && low as real <= x <= high as real
    ensures low <= Round(x) <= high && -0.5 < Round(x) as real - x <= 0.5
  {
  }

  function MixColor(base: Color, target: Color, weight: real): Color
    requires 0.0 <= weight <= 1.0
  {
    ChannelStaysBetween(base.r, target.r, weight);
    ChannelStaysBetween(base.g, target.g, weight);
    ChannelStaysBetween(base.b, target.b, weight);
    Color(
      Round(Blend(base.r as real, target.r as real, weight)),
      Round(Blend(base.g as real, target.g as real, weight)),
      Round(Blend(base.b as real, target.b as real, weight)))
  }

  /** A mix lies between its inputs, within half a step of the exact blend, and reaches
      either input at the ends of the weight. */
  lemma MixStaysBetween(base: Color, target: Color, weight: real)
    requires 0.0 <= weight <= 1.0
    ensures var m := MixColor(base, target, weight);
            && Between(m.r, base.r, target.r) && Between(m.g, base.g, target.g) && Between(m.b, base.b, target.b)
            && -0.5 < m.r as real - Blend(base.r as real, target.r as real, weight) <= 0.5
            && -0.5 < m.g as real - Blend(base.g as real, target.g as real, weight) <= 0.5
            && -0.5 < m.b as real - Blend(base.b as real, target.b as real, weight) <= 0.5
    ensures MixColor(base, target, 0.0) == base && MixColor(base, target, 1.0) == target
  {
    hide Round, Blend;
    MixAtEnds(base, target);
    ChannelStaysBetween(base.r, target.r, weight);
    ChannelStaysBetween(base.g, target.g, weight);
    ChannelStaysBetween(base.b, target.b, weight);
  }

  lemma MixAtEnds(base: Color, target: Color)
    ensures MixColor(base, target, 0.0) == base && MixColor(base, target, 1.0) == target
  {
  }

  // ----- luminance and contrast -----

  /** What is needed of x to the power 2.4: it maps the unit interval into itself and 1 to 1. */
  ghost predicate IsPower(power: real -> real) {
    power(1.0) == 1.0 && forall x | 0.0 <= x <= 1.0 :: 0.0 <= power(x) <= 1.0
  }

  function Channel(power: real -> real, value: Byte): real {
    var normalized := value as real / 255.0;
    if normalized <= 0.04045 then normalized / 12.92 else power((normalized + 0.055) / 1.055)
  }

  function RelativeLuminance(power: real -> real, c: Color): real {
    0.2126 * Channel(power, c.r) + 0.7152 * Channel(power, c.g) + 0.0722 * Channel(power, c.b)
  }

  function ContrastRatio(power: real -> real, a: Color, b: Color): real
    requires RelativeLuminance(power, a) >= 0.0 && RelativeLuminance(power, b) >= 0.0
  {
    var la, lb := RelativeLuminance(power, a), RelativeLuminance(power, b);
    var lighter, darker := if la >= lb then la else lb, if la <= lb then la else lb;
    (lighter + 0.05) / (darker + 0.05)
  }

  lemma ChannelInUnit(power: real -> real, value: Byte)
    requires IsPower(power)
    ensures 0.0 <= Channel(power, value) <= 1.0
    ensures value == 0 ==> Channel(power, value) == 0.0
    ensures value == 255 ==> Channel(power, value) == 1.0
  {
    var normalized := value as real / 255.0;
    assert 0.0 <= (normalized + 0.055) / 1.055 <= 1.0;
  }

  lemma LuminanceInUnit(power: real -> real, c: Color)
    requires IsPower(power)
    ensures 0.0 <= RelativeLuminance(power, c) <= 1.0
    ensures RelativeLuminance(power, BLACK) == 0.0 && RelativeLuminance(power, WHITE) == 1.0
  {
    ChannelInUnit(power, c.r);
    ChannelInUnit(power, c.g);
    ChannelInUnit(power, c.b);
    ChannelInUnit(power, 0);
    ChannelInUnit(power, 255);
  }

  /** The curve of WCAG 2.2 for one channel: linear up to 10 of 255, the power above. */
  lemma ChannelCurve(power: real -> real, value: Byte)
    ensures value <= 10 ==> Channel(power, value) * 3294.6 == value as real
    ensures value > 10 ==> Channel(power, value) == power((value as real + 14.025) / 269.025)
  {
    var normalized := value as real / 255.0;
    assert (normalized + 0.055) / 1.055 == (value as real + 14.025) / 269.025;
  }

  /** Each channel adds its own share of the luminance, and full red, green and blue have
      the shares of WCAG 2.2. */
  lemma LuminanceShares(power: real -> real, c: Color)
    requires IsPower(power)
    ensures RelativeLuminance(power, c)
         == RelativeLuminance(power, Color(c.r, 0, 0)) + RelativeLuminance(power, Color(0, c.g, 0))
            + RelativeLuminance(power, Color(0, 0, c.b))
    ensures RelativeLuminance(power, Color(255, 0, 0)) == 0.2126
    ensures RelativeLuminance(power, Color(0, 255, 0)) == 0.7152
    ensures RelativeLuminance(power, Color(0, 0, 255)) == 0.0722
    ensures RelativeLuminance(power, Color(c.r, 0, 0)) == 0.2126 * Channel(power, c.r)
  {
    hide Channel;
    ChannelInUnit(power, 0);
    ChannelInUnit(power, 255);
  }

  function HighestContrastForeground(power: real -> real, background: Color): string
    requires IsPower(power)
  {
    LuminanceInUnit(power, background);
    if ContrastRatio(power, background, BLACK) >= ContrastRatio(power, background, WHITE) then Hex(BLACK)
      else Hex(WHITE)
  }

  lemma OneOfTwoContrasts(shifted: real)
    requires 0.05 <= shifted <= 1.05
    ensures shifted / 0.05 >= 1.05 / shifted ==> shifted / 0.05 >= 4.5
    ensures shifted / 0.05 < 1.05 / shifted ==> 1.05 / shifted >= 4.5
  {
    var white := 1.05 / shifted;
    assert white * shifted == 1.05;
    if shifted / 0.05 >= white {
      Scale(0.05 * white, shifted, shifted);
      SquareAtLeast(shifted, 0.0525, 0.225);
    } else {
      Scale(20.0 * shifted, white, white);
      SquareAtLeast(white, 21.0, 4.5);
    }
  }

  lemma Scale(a: real, b: real, factor: real)
    requires a <= b && factor > 0.0
    ensures a * factor <= b * factor
  {
  }

  /** A positive number whose square is at least s is above every root of less. */
  lemma SquareAtLeast(x: real, s: real, root: real)
    requires x > 0.0 && x * x >= s && root > 0.0 && root * root < s
    ensures x > root
  {
  }

  /** Swapping the colours changes nothing, and a ratio is from 1 to 21. */
  lemma ContrastIsSymmetric(power: real -> real, a: Color, b: Color)
    requires IsPower(power)
    ensures RelativeLuminance(power, a) >= 0.0 && RelativeLuminance(power, b) >= 0.0
    ensures ContrastRatio(power, a, b) == ContrastRatio(power, b, a)
    ensures 1.0 <= ContrastRatio(power, a, b) <= 21.0
  {
    hide RelativeLuminance;
    LuminanceInUnit(power, a);
    LuminanceInUnit(power, b);
    var la, lb := RelativeLuminance(power, a), RelativeLuminance(power, b);
    QuotientBounds((if la >= lb then la else lb) + 0.05, (if la <= lb then la else lb) + 0.05);
  }

  lemma QuotientBounds(a: real, b: real)
    requires 0.05 <= b <= a <= 1.05
    ensures 1.0 <= a / b <= 21.0
  {
    assert a / b * b == a;
    CancelScale(a / b, 21.0, b);
    CancelScale(1.0, a / b, b);
  }

  lemma CancelScale(x: real, y: real, factor: real)
    requires factor > 0.0 && x * factor <= y * factor
    ensures x <= y
  {
  }

  /** Black or white, whichever the theme puts on a brand colour, is at least 4.5:1
      against it, the minimum of success criterion 1.4.3 of WCAG 2.2, and is the better
      of the two. */
  lemma OnBrandIsReadable(power: real -> real, c: Color)
    requires IsPower(power)
    ensures RelativeLuminance(power, c) >= 0.0 && RelativeLuminance(power, BLACK) >= 0.0
        && RelativeLuminance(power, WHITE) >= 0.0
    ensures exists text: Color ::
              && HighestContrastForeground(power, c) == Hex(text) && (text == BLACK || text == WHITE)
              && ContrastRatio(power, c, text) >= 4.5
              && ContrastRatio(power, c, text) >= ContrastRatio(power, c, BLACK)
              && ContrastRatio(power, c, text) >= ContrastRatio(power, c, WHITE)
  {
    hide RelativeLuminance, Hex;
    LuminanceInUnit(power, c);
    var shifted := RelativeLuminance(power, c) + 0.05;
    OneOfTwoContrasts(shifted);
    assert ContrastRatio(power, c, BLACK) == shifted / 0.05;
    assert ContrastRatio(power, c, WHITE) == 1.05 / shifted;
    var text := if shifted / 0.05 >= 1.05 / shifted then BLACK else WHITE;
    assert HighestContrastForeground(power, c) == Hex(text);
  }

  // ----- the palette of a configuration -----

  datatype Tint = NoTint | Tint(color: Color, alpha: real)

  datatype BrandTheme = BrandTheme(
    primary: string,
    accentSecondary: string,
    accentGlow: Tint,
    onBrand: string,
    secondary: string,
    ambientPrimary: Tint,
    ambientSecondary: Tint)

  const NO_THEME := BrandTheme("", "", NoTint, "", "", NoTint, NoTint)

  datatype BrandPalette = BrandPalette(dark: BrandTheme, light: BrandTheme, hasPrimary: bool, hasSecondary: bool)

  datatype BrandError = HalfPair(name: string) | Malformed(name: string) | LowContrast(name: string)

  datatype Result<T> = Ok(value: T) | Err(error: BrandError)

  datatype Settings = Settings(primaryDark: string, primaryLight: string, secondaryDark: string, secondaryLight: string)

  function ValidateBrandPair(name: string, dark: string, light: string): Result<bool> {
    if (dark == "") != (light == "") then Err(HalfPair(name)) else Ok(dark != "")
  }

  function ParsedOrBlack(value: string): Color {
    if ParseHexColor(value).Some? then ParseHexColor(value).value else BLACK
  }

  function ParseAndCheckBrandColor(
      power: real -> real, name: string, value: string, surface: string, minimum: real): Result<Color>
    requires IsPower(power)
  {
    var color := ParseHexColor(value);
    if color.None? then Err(Malformed(name))
    else
      LuminanceInUnit(power, color.value);
      LuminanceInUnit(power, ParsedOrBlack(surface));
      if ContrastRatio(power, color.value, ParsedOrBlack(surface)) < minimum then Err(LowContrast(name))
        else Ok(color.value)
  }

  function BrandThemeFromPrimary(power: real -> real, primary: Color, hoverTarget: Color, glowAlpha: real): BrandTheme
    requires IsPower(power)
  {
    BrandTheme(
      Hex(primary), Hex(MixColor(primary, hoverTarget, 0.12)), Tint(primary, glowAlpha),
      HighestContrastForeground(power, primary), "", Tint(primary, 0.08), NoTint)
  }

  function WithSecondary(theme: BrandTheme, color: Color): BrandTheme {
    theme.(secondary := Hex(color), ambientSecondary := Tint(color, 0.05))
  }

  function ParseBrandPalette(power: real -> real, s: Settings): Result<BrandPalette>
    requires IsPower(power)
  {
    var primarySet := ValidateBrandPair("BRAND_PRIMARY_COLOR", s.primaryDark, s.primaryLight);
    if primarySet.Err? then Err(primarySet.error) else
    var secondarySet := ValidateBrandPair("BRAND_SECONDARY_COLOR", s.secondaryDark, s.secondaryLight);
    if secondarySet.Err? then Err(secondarySet.error) else
    var empty := BrandPalette(NO_THEME, NO_THEME, primarySet.value, secondarySet.value);
    var primary := if primarySet.value then ApplyPrimary(power, s, empty) else Ok(empty);
    if primary.Err? || !secondarySet.value then primary else ApplySecondary(power, s, primary.value)
  }

  function ApplyPrimary(power: real -> real, s: Settings, palette: BrandPalette): Result<BrandPalette>
    requires IsPower(power)
  {
    var dark := ParseAndCheckBrandColor(power, "BRAND_PRIMARY_COLOR_DARK", s.primaryDark, DARK_THEME_SURFACE, 4.5);
    if dark.Err? then Err(dark.error) else
    var light := ParseAndCheckBrandColor(power, "BRAND_PRIMARY_COLOR_LIGHT", s.primaryLight, LIGHT_THEME_SURFACE, 4.5);
    if light.Err? then Err(light.error) else
    Ok(palette.(
      dark := BrandThemeFromPrimary(power, dark.value, WHITE, 0.30),
      light := BrandThemeFromPrimary(power, light.value, BLACK, 0.22)))
  }

  function ApplySecondary(power: real -> real, s: Settings, palette: BrandPalette): Result<BrandPalette>
    requires IsPower(power)
  {
    var dark := ParseAndCheckBrandColor(power, "BRAND_SECONDARY_COLOR_DARK", s.secondaryDark, DARK_THEME_SURFACE, 3.0);
    if dark.Err? then Err(dark.error) else
    var light := ParseAndCheckBrandColor(
      power, "BRAND_SECONDARY_COLOR_LIGHT", s.secondaryLight, LIGHT_THEME_SURFACE, 3.0);
    if light.Err? then Err(light.error) else
    Ok(palette.(dark := WithSecondary(palette.dark, dark.value), light := WithSecondary(palette.light, light.value)))
  }

  /** A colour in #RRGGBB that stands out from its surface by the minimum. */
  ghost predicate Readable(power: real -> real, value: string, surface: string, minimum: real)
    requires IsPower(power)
  {
    && ParseHexColor(value).Some?
    && (LuminanceInUnit(power, ParseHexColor(value).value);
        LuminanceInUnit(power, ParsedOrBlack(surface));
        ContrastRatio(power, ParseHexColor(value).value, ParsedOrBlack(surface)) >= minimum)
  }

  /** Which settings are accepted, and that the palette then shows each colour as set. */
  lemma AcceptsReadablePairs(power: real -> real, s: Settings)
    requires IsPower(power)
    ensures var r := ParseBrandPalette(power, s);
            && (r.Ok? <==>
                  && ((s.primaryDark == "") <==> (s.primaryLight == ""))
                  && ((s.secondaryDark == "") <==> (s.secondaryLight == ""))
                  && (s.primaryDark != "" ==>
                        && Readable(power, s.primaryDark, DARK_THEME_SURFACE, 4.5)
                        && Readable(power, s.primaryLight, LIGHT_THEME_SURFACE, 4.5))
                  && (s.secondaryDark != "" ==>
                        && Readable(power, s.secondaryDark, DARK_THEME_SURFACE, 3.0)
                        && Readable(power, s.secondaryLight, LIGHT_THEME_SURFACE, 3.0)))
            && (r.Ok? ==>
                  && r.value.hasPrimary == (s.primaryDark != "") && r.value.hasSecondary == (s.secondaryDark != "")
                  && r.value.dark.primary == Lower(s.primaryDark) && r.value.light.primary == Lower(s.primaryLight)
                  && r.value.dark.secondary == Lower(s.secondaryDark)
                  && r.value.light.secondary == Lower(s.secondaryLight))
  {
    hide RelativeLuminance, ParseHexColor, Hex, HighestContrastForeground, MixColor, ContrastRatio, Lower;
    LowerOfEmpty();
    forall value | ParseHexColor(value).Some?
      ensures value != "" && Hex(ParseHexColor(value).value) == Lower(value)
    {
      ParsesDigitPairs(value);
      HexOfParsedIsLower(value);
    }
  }

  ghost function Problem(name: string, value: string): BrandError {
    if ParseHexColor(value).None? then Malformed(name) else LowContrast(name)
  }

  /** The error names the first setting at fault: a half pair, primary before secondary, or
      else a colour that is malformed or too close to its surface, dark before light. */
  lemma RejectsTheFirstFault(power: real -> real, s: Settings)
    requires IsPower(power) && ParseBrandPalette(power, s).Err?
    ensures ParseBrandPalette(power, s).error ==
            if (s.primaryDark == "") != (s.primaryLight == "") then HalfPair("BRAND_PRIMARY_COLOR")
            else if (s.secondaryDark == "") != (s.secondaryLight == "") then HalfPair("BRAND_SECONDARY_COLOR")
            else if s.primaryDark != "" && !Readable(power, s.primaryDark, DARK_THEME_SURFACE, 4.5) then
              Problem("BRAND_PRIMARY_COLOR_DARK", s.primaryDark)
            else if s.primaryDark != "" && !Readable(power, s.primaryLight, LIGHT_THEME_SURFACE, 4.5) then
              Problem("BRAND_PRIMARY_COLOR_LIGHT", s.primaryLight)
            else if !Readable(power, s.secondaryDark, DARK_THEME_SURFACE, 3.0) then
              Problem("BRAND_SECONDARY_COLOR_DARK", s.secondaryDark)
            else Problem("BRAND_SECONDARY_COLOR_LIGHT", s.secondaryLight)
  {
    hide RelativeLuminance, ParseHexColor, Hex, HighestContrastForeground, MixColor, ContrastRatio;
  }

  /** The translucent colours of an accepted palette: the primary one as glow and ambient
      light, the secondary one as ambient light, each only where it is set. */
  lemma PaletteTints(power: real -> real, s: Settings)
    requires IsPower(power) && ParseBrandPalette(power, s).Ok?
    ensures var p := ParseBrandPalette(power, s).value;
            && (s.primaryDark == "" ==> p.dark.accentGlow == p.light.accentGlow == NoTint)
            && (s.primaryDark == "" ==> p.dark.ambientPrimary == p.light.ambientPrimary == NoTint)
            && (s.primaryDark != "" ==>
                  var dark, light := ParseHexColor(s.primaryDark), ParseHexColor(s.primaryLight);
                  && dark.Some? && p.dark.accentGlow == Tint(dark.value, 0.30)
                  && light.Some? && p.light.accentGlow == Tint(light.value, 0.22)
                  && p.dark.ambientPrimary == Tint(dark.value, 0.08)
                  && p.light.ambientPrimary == Tint(light.value, 0.08))
            && (s.secondaryDark == "" ==> p.dark.ambientSecondary == p.light.ambientSecondary == NoTint)
            && (s.secondaryDark != "" ==>
                  var dark, light := ParseHexColor(s.secondaryDark), ParseHexColor(s.secondaryLight);
                  && dark.Some? && p.dark.ambientSecondary == Tint(dark.value, 0.05)
                  && light.Some? && p.light.ambientSecondary == Tint(light.value, 0.05))
  {
    hide RelativeLuminance, ParseHexColor, Hex, HighestContrastForeground, MixColor, ContrastRatio;
  }

  /** In an accepted palette the text a theme puts on its primary colour is readable,
      and the hover colour is the primary moved towards white, or towards black. */
  lemma PaletteTextIsReadable(power: real -> real, s: Settings)
    requires IsPower(power) && ParseBrandPalette(power, s).Ok? && s.primaryDark != ""
    ensures var p := ParseBrandPalette(power, s).value;
            && Readable(power, Lower(s.primaryDark), p.dark.onBrand, 4.5)
            && Readable(power, Lower(s.primaryLight), p.light.onBrand, 4.5)
            && ParseHexColor(p.dark.accentSecondary) == Some(MixColor(ParsedOrBlack(s.primaryDark), WHITE, 0.12))
            && ParseHexColor(p.light.accentSecondary) == Some(MixColor(ParsedOrBlack(s.primaryLight), BLACK, 0.12))
  {
    hide RelativeLuminance, ParseHexColor, Hex, HighestContrastForeground, MixColor, ContrastRatio, Lower;
    AcceptsReadablePairs(power, s);
    TextIsReadable(power, s.primaryDark);
    TextIsReadable(power, s.primaryLight);
    ParseInvertsHex(MixColor(ParsedOrBlack(s.primaryDark), WHITE, 0.12));
    ParseInvertsHex(MixColor(ParsedOrBlack(s.primaryLight), BLACK, 0.12));
  }

  lemma TextIsReadable(power: real -> real, value: string)
    requires IsPower(power) && ParseHexColor(value).Some?
    ensures Readable(power, Lower(value), HighestContrastForeground(power, ParseHexColor(value).value), 4.5)
  {
    hide RelativeLuminance, ParseHexColor, Hex, HighestContrastForeground, ContrastRatio, Lower;
    LowerMeansTheSame(value);
    var c := ParseHexColor(value).value;
    OnBrandIsReadable(power, c);
    var text: Color :|
      && HighestContrastForeground(power, c) == Hex(text)
      && (text == BLACK || text == WHITE) && ContrastRatio(power, c, text) >= 4.5;
    ParseInvertsHex(text);
  }

  lemma LowerOfEmpty()
    ensures Lower("") == ""
  {
  }

  /** The settings with each accepted colour in its canonical form. */
  function Normalized(power: real -> real, s: Settings): Settings
    requires IsPower(power)
  {
    var r := ParseBrandPalette(power, s);
    if r.Err? then s
    else
      var dark, light := r.value.dark, r.value.light;
      var t := if r.value.hasPrimary then s.(primaryDark := dark.primary, primaryLight := light.primary) else s;
      if r.value.hasSecondary then t.(secondaryDark := dark.secondary, secondaryLight := light.secondary) else t
  }

  /** Normalizing keeps what the settings mean, colours and errors alike, and doing it
      again, at load and then at validation, changes nothing. */
  lemma NormalizingIsIdempotent(power: real -> real, s: Settings)
    requires IsPower(power)
    ensures ParseBrandPalette(power, Normalized(power, s)) == ParseBrandPalette(power, s)
    ensures Normalized(power, Normalized(power, s)) == Normalized(power, s)
    ensures ParseBrandPalette(power, s).Ok? ==>
              Normalized(power, s)
                == Settings(Lower(s.primaryDark), Lower(s.primaryLight), Lower(s.secondaryDark),
                  Lower(s.secondaryLight))
  {
    hide RelativeLuminance, ParseHexColor, Hex, HighestContrastForeground, MixColor, ContrastRatio, Lower;
    var r := ParseBrandPalette(power, s);
    if r.Ok? {
      AcceptsReadablePairs(power, s);
      LowerOfEmpty();
      LowerMeansTheSame(s.primaryDark);
      LowerMeansTheSame(s.primaryLight);
      LowerMeansTheSame(s.secondaryDark);
      LowerMeansTheSame(s.secondaryLight);
    }
  }

  lemma LowerMeansTheSame(value: string)
    ensures ParseHexColor(value).Some? ==> ParseHexColor(Lower(value)) == ParseHexColor(value)
    ensures Lower(Lower(value)) == Lower(value) && (Lower(value) == "" <==> value == "")
  {
    if ParseHexColor(value).Some? {
      HexOfParsedIsLower(value);
      ParseInvertsHex(ParseHexColor(value).value);
    }
  }

  class Config {
    var brandPrimaryColorDark: string
    var brandPrimaryColorLight: string
    var brandSecondaryColorDark: string
    var brandSecondaryColorLight: string

    function Brand(): Settings
      reads this
    {
      Settings(brandPrimaryColorDark, brandPrimaryColorLight, brandSecondaryColorDark, brandSecondaryColorLight)
    }

    constructor (s: Settings)
      ensures Brand() == s
    {
      brandPrimaryColorDark, brandPrimaryColorLight := s.primaryDark, s.primaryLight;
      brandSecondaryColorDark, brandSecondaryColorLight := s.secondaryDark, s.secondaryLight;
    }

    /** An error leaves the settings alone; success makes every colour canonical. */
    method NormalizeBrandColors(power: real -> real) returns (error: Option<BrandError>)
      requires IsPower(power)
      modifies this
      ensures Brand() == Normalized(power, old(Brand()))
      ensures error.None? <==> ParseBrandPalette(power, old(Brand())).Ok?
      ensures error.Some? ==> ParseBrandPalette(power, Brand()) == Err(error.value) && Brand() == old(Brand())
      ensures error.None? ==> Normalized(power, Brand()) == Brand() && ParseBrandPalette(power, Brand()).Ok?
    {
      NormalizingIsIdempotent(power, Brand());
      var palette := ParseBrandPalette(power, Brand());
      if palette.Err? { return Some(palette.error); }
      if palette.value.hasPrimary {
        brandPrimaryColorDark := palette.value.dark.primary;
        brandPrimaryColorLight := palette.value.light.primary;
      }
      if palette.value.hasSecondary {
        brandSecondaryColorDark := palette.value.dark.secondary;
        brandSecondaryColorLight := palette.value.light.secondary;
      }
      return None;
    }
  }
}
