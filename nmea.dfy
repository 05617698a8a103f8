/**
 * The shared part of the NMEA 0183 encoder: the two precision profiles, the
 * XOR checksum, the `$body*HH\r\n` framing, and the conversion of a signed
 * coordinate in degrees into "degrees, minutes, hemisphere letter".
 *
 * The profile that Go keeps in the mutable global `Formats` is a parameter
 * here.
 */
module Nmea {
  import opened Wrappers
  import opened Fmt

  // ---------------------------------------------------------------- profiles

  /**
   * The layout of a latitude or longitude: `%0<degWidth>d` for the whole
   * degrees, then `%0<minWidth>.<prec>f` for the minutes (width 0 is a verb
   * without a width).
   */
  datatype LLFormat = LLFormat(degWidth: nat, minWidth: nat, prec: nat)

  /** The `formats` struct: lat/lon layouts and the `%0.Pf` precisions of alt, sog and hdg. */
  datatype Formats = Formats(lat: LLFormat, lon: LLFormat, alt: nat, sog: nat, hdg: nat)

  const DEFAULT_LAT_PRECISION: nat := 4
  const DEFAULT_LON_PRECISION: nat := 4
  const DEFAULT_ALT_PRECISION: nat := 2
  const DEFAULT_SOG_PRECISION: nat := 6
  const DEFAULT_HDG_PRECISION: nat := 3

  const ENHANCED_LAT_PRECISION: nat := 7
  const ENHANCED_LON_PRECISION: nat := 7
  const ENHANCED_ALT_PRECISION: nat := 4
  const ENHANCED_SOG_PRECISION: nat := 7
  const ENHANCED_HDG_PRECISION: nat := 3

  /** lat "%02d%0.4f", lon "%03d%0.4f", alt/sog/hdg "%0.2f", "%0.6f", "%0.3f". */
  const DEFAULTS: Formats := Formats(
    LLFormat(2, 0, DEFAULT_LAT_PRECISION), LLFormat(3, 0, DEFAULT_LON_PRECISION),
    DEFAULT_ALT_PRECISION, DEFAULT_SOG_PRECISION, DEFAULT_HDG_PRECISION)

  /** lat "%02d%02.7f", lon "%03d%02.7f", alt/sog/hdg "%0.4f", "%0.7f", "%0.3f". */
  const ENHANCED: Formats := Formats(
    LLFormat(2, 2, ENHANCED_LAT_PRECISION), LLFormat(3, 2, ENHANCED_LON_PRECISION),
    ENHANCED_ALT_PRECISION, ENHANCED_SOG_PRECISION, ENHANCED_HDG_PRECISION)

  // ---------------------------------------------------------------- checksum

  /** `int(c)` of a rune, held in 32 bits (every rune is below 0x110000). */
  function Code(c: char): bv32
  {
    (c as int) as bv32
  }

  /** `byte(cs)`: the low 8 bits. */
  function Low8(x: bv32): bv8
  {
    (x & 0xFF) as bv8
  }

  /** The byte `byte(int(c))` that a rune contributes to the checksum. */
  function Byte(c: char): bv8
  {
    Low8(Code(c))
  }

  /** The XOR of f over the first n characters of s. */
  function XorOf(f: char -> bv8, s: string, n: nat): bv8
    requires n <= |s|
  {
    if n == 0 then 0 else XorOf(f, s, n - 1) ^ f(s[n - 1])
  }

  /** The XOR of the bytes of the first n characters of s. */
  function ByteXor(s: string, n: nat): bv8
    requires n <= |s|
  {
    XorOf(Byte, s, n)
  }

  /** The NMEA checksum of s: the XOR of the low bytes of its character codes. */
  function Checksum(s: string): bv8
  {
    ByteXor(s, |s|)
  }

  lemma Low8Xor(x: bv32, y: bv32)
    ensures Low8(x ^ y) == Low8(x) ^ Low8(y)
  {
  }

  /**
   * XORing the full code into an int and keeping the low 8 bits at the end
   * gives the XOR of the low bytes so far.
   */
  lemma ChecksumStep(s: string, i: nat, cs: bv32)
    requires i < |s| && Low8(cs) == ByteXor(s, i)
    ensures Low8(cs ^ Code(s[i])) == ByteXor(s, i + 1)
  {
    Low8Xor(cs, Code(s[i]));
  }

  /** calculateChecksum: the accumulating loop over the runes of s, then `byte(cs)`. */
  method CalculateChecksum(s: string) returns (b: bv8)
    ensures b == Checksum(s)
  {
    var cs: bv32 := 0;
    for i := 0 to |s|
      invariant Low8(cs) == ByteXor(s, i)
    {
      ChecksumStep(s, i, cs);
      cs := cs ^ Code(s[i]);
    }
    b := Low8(cs);
  }

  lemma ChecksumEmpty()
    ensures Checksum("") == 0
  {
  }

  lemma XorZero(x: bv8)
    ensures x ^ 0 == x
  {
  }

  lemma XorAssoc(x: bv8, y: bv8, z: bv8)
    ensures (x ^ y) ^ z == x ^ (y ^ z)
  {
  }

  /** The XOR over a concatenation, up to n characters into its second part. */
  lemma {:induction false} XorOfConcat(f: char -> bv8, s: string, t: string, n: nat)
    requires n <= |t|
    ensures XorOf(f, s + t, |s| + n) == XorOf(f, s, |s|) ^ XorOf(f, t, n)
  {
    var a := XorOf(f, s, |s|);
    if n == 0 {
      XorOfPrefix(f, s, t, |s|);
      XorZero(a);
    } else {
      XorOfConcat(f, s, t, n - 1);
      assert (s + t)[|s| + n - 1] == t[n - 1];
      XorAssoc(a, XorOf(f, t, n - 1), f(t[n - 1]));
    }
  }

  lemma {:induction false} XorOfPrefix(f: char -> bv8, s: string, t: string, n: nat)
    requires n <= |s|
    ensures XorOf(f, s + t, n) == XorOf(f, s, n)
  {
    if n > 0 {
      XorOfPrefix(f, s, t, n - 1);
      assert (s + t)[n - 1] == s[n - 1];
    }
  }

  /** The checksum of a concatenation is the XOR of the checksums. */
  lemma ChecksumConcat(s: string, t: string)
    ensures Checksum(s + t) == Checksum(s) ^ Checksum(t)
  {
    XorOfConcat(Byte, s, t, |t|);
  }

  // ---------------------------------------------------------------- framing

  /** An upper-case hexadecimal digit, as `%X` writes it. */
  function HexDigit(d: bv8): (c: char)
    requires d < 16
    ensures ('0' <= c <= '9') || ('A' <= c <= 'F')
  {
    if d < 10 then (48 + d as int) as char else (55 + d as int) as char
  }

  /** `%02X` of a byte: always exactly two upper-case hexadecimal digits. */
  function Hex2(b: bv8): (h: string)
    ensures |h| == 2
  {
    [HexDigit(b >> 4), HexDigit(b & 0xF)]
  }

  function HexValue(c: char): Option<bv8>
  {
    if '0' <= c <= '9' then Some((c as int - 48) as bv8)
    else if 'A' <= c <= 'F' then Some((c as int - 55) as bv8)
    else None
  }

  /** Reads two upper-case hexadecimal digits back into a byte. */
  function ParseHex2(h: string): Option<bv8>
  {
    if |h| != 2 then None
    else match (HexValue(h[0]), HexValue(h[1]))
      case (Some(hi), Some(lo)) => Some((hi << 4) | lo)
      case _ => None
  }

  lemma HexDigitValue(d: bv8)
    requires d < 16
    ensures HexValue(HexDigit(d)) == Some(d)
  {
  }

  lemma Hex2ReadsBack(b: bv8)
    ensures ParseHex2(Hex2(b)) == Some(b)
  {
    HexDigitValue(b >> 4);
    HexDigitValue(b & 0xF);
    assert ((b >> 4) << 4) | (b & 0xF) == b;
  }

  lemma HexValueExact(c: char, d: bv8)
    requires HexValue(c) == Some(d)
    ensures d < 16 && HexDigit(d) == c
  {
    if '0' <= c <= '9' {
      DecimalDigitExact(c, d);
    } else {
      LetterDigitExact(c, d);
    }
  }

  lemma DecimalDigitExact(c: char, d: bv8)
    requires '0' <= c <= '9' && d == (c as int - 48) as bv8
    ensures d < 16 && HexDigit(d) == c
  {
    assert d as int == c as int - 48;
  }

  lemma LetterDigitExact(c: char, d: bv8)
    requires 'A' <= c <= 'F' && d == (c as int - 55) as bv8
    ensures d < 16 && HexDigit(d) == c
  {
    assert d as int == c as int - 55;
  }

  lemma NibblesSplit(hi: bv8, lo: bv8)
    requires hi < 16 && lo < 16
    ensures ((hi << 4) | lo) >> 4 == hi && ((hi << 4) | lo) & 0xF == lo
  {
  }

  lemma ParseHex2Exact(h: string, b: bv8)
    requires ParseHex2(h) == Some(b)
    ensures h == Hex2(b)
  {
    var hi := HexValue(h[0]).value;
    var lo := HexValue(h[1]).value;
    HexValueExact(h[0], hi);
    HexValueExact(h[1], lo);
    NibblesSplit(hi, lo);
  }

  /** `fmt.Sprintf("$%s*%02X\r\n", bs, calculateChecksum(bs))`. */
  function Frame(body: string): string
  {
    "$" + body + "*" + Hex2(Checksum(body)) + "\r\n"
  }

  /**
   * Reads a framed sentence back: '$', the body, '*', two hexadecimal digits
   * that must equal the checksum of the body, and "\r\n".
   */
  function ParseSentence(s: string): Option<string>
  {
    if |s| < 6 || s[0] != '$' || s[|s| - 5] != '*' || s[|s| - 2..] != "\r\n" then None
    else
      var body := s[1..|s| - 5];
      match ParseHex2(s[|s| - 4..|s| - 2])
      case Some(b) => if b == Checksum(body) then Some(body) else None
      case None => None
  }

  /** A sentence reads back as its body, and carries a valid checksum. */
  lemma FrameReadsBack(body: string)
    ensures ParseSentence(Frame(body)) == Some(body)
  {
    var s := Frame(body);
    var n := |s|;
    assert s[0] == '$';
    assert s[n - 5] == '*';
    assert s[n - 2..] == "\r\n";
    assert s[1..n - 5] == body;
    assert s[n - 4..n - 2] == Hex2(Checksum(body));
    Hex2ReadsBack(Checksum(body));
  }

  /** Only framed sentences read back: the parser accepts nothing else. */
  lemma ParseSentenceExact(s: string, body: string)
    requires ParseSentence(s) == Some(body)
    ensures s == Frame(body)
  {
    var n := |s|;
    ParseHex2Exact(s[n - 4..n - 2], Checksum(body));
    assert s == [s[0]] + s[1..n - 5] + [s[n - 5]] + s[n - 4..n - 2] + s[n - 2..];
  }

  // ---------------------------------------------------------------- coordinates

  /** `math.Abs` */
  function AbsD(x: Decimal): Decimal
  {
    Decimal(Abs(x.units), x.scale)
  }

  /** `int(math.Floor(vA))`: the whole degrees of |v|. */
  function Degrees(v: Decimal): nat
  {
    IntPart(Abs(v.units), v.scale)
  }

  /** `(vA - vDegrees) * 60`, exactly. */
  function Minutes(v: Decimal): Decimal
  {
    Decimal(60 * FracPart(Abs(v.units), v.scale), v.scale)
  }

  /** `vD := ds[0]; if vA < 0 { vD = ds[1] }` */
  function Direction(vA: Decimal, ds: seq<char>): char
    requires |ds| == 2
  {
    if vA.units < 0 then ds[1] else ds[0]
  }

  /** The degrees-and-minutes text of the coordinate v, as the format fm lays it out. */
  function DegMin(v: Decimal, fm: LLFormat): string
  {
    ZeroPad(Itoa(Degrees(v)), fm.degWidth) + FormatFWidth(Minutes(v), fm.minWidth, fm.prec)
  }

  /** calculateLL: degrees and minutes, a comma, and the direction letter. */
  function CalculateLL(v: Decimal, ds: seq<char>, fm: LLFormat): string
    requires |ds| == 2
  {
    DegMin(v, fm) + "," + [Direction(AbsD(v), ds)]
  }

  function CalculateLat(fmts: Formats, lat: Decimal): string
  {
    CalculateLL(lat, ['N', 'S'], fmts.lat)
  }

  function CalculateLon(fmts: Formats, lon: Decimal): string
  {
    CalculateLL(lon, ['E', 'W'], fmts.lon)
  }

  /**
   * The degrees are floor(|v|) and the minutes are what is left of |v|, times
   * 60, so 0 <= minutes < 60 (all in units of 10^-scale).
   */
  lemma DegreesMinutesSplit(v: Decimal)
    ensures Shift(Degrees(v), v.scale) <= Abs(v.units) < Shift(Degrees(v) + 1, v.scale)
    ensures Minutes(v).scale == v.scale
    ensures Minutes(v).units == 60 * (Abs(v.units) - Shift(Degrees(v), v.scale))
    ensures 0 <= Minutes(v).units < 60 * Pow10(v.scale)
  {
    PartsRecombine(Abs(v.units), v.scale);
    ShiftSucc(Degrees(v), v.scale);
  }

  /**
   * As written, the direction letter is always the first rune of ds: the
   * test `vA < 0` is made on the absolute value.
   */
  lemma CalculateLLLetter(v: Decimal, ds: seq<char>, fm: LLFormat)
    requires |ds| == 2
    ensures var s := CalculateLL(v, ds, fm); s[|s| - 1] == ds[0] && s[|s| - 2] == ','
  {
  }

  /**
   * The degrees are padded with zeros to degWidth digits and otherwise keep
   * every digit: the text is at least degWidth long and reads back as the
   * whole degrees.
   */
  lemma DegreesText(v: Decimal, fm: LLFormat)
    ensures var d := ZeroPad(Itoa(Degrees(v)), fm.degWidth);
      && |d| >= fm.degWidth && AllDigits(d) && Atoi(d) == Degrees(v)
      && (Degrees(v) >= Pow10(fm.degWidth) ==> |d| > fm.degWidth)
  {
    AtoiItoa(Degrees(v));
    ZeroPadDigits(Itoa(Degrees(v)), fm.degWidth);
    if Degrees(v) >= Pow10(fm.degWidth) && |Itoa(Degrees(v))| <= fm.degWidth {
      ItoaBelow(Degrees(v), fm.degWidth);
    }
  }

  /** A number of at most k digits is below 10^k. */
  lemma {:induction false} ItoaBelow(n: nat, k: nat)
    requires |Itoa(n)| <= k
    ensures n < Pow10(k)
    decreases n
  {
    if n >= 10 {
      ItoaBelow(n / 10, k - 1);
    }
  }

  /**
   * As written, a minutes width of at most 2 never pads when there are
   * decimals: "%0.4f" and "%02.7f" both print the minutes with no leading
   * zero, so 7.4074 minutes come out as "7.4074" and not "07.4074".
   */
  lemma MinutesUnpadded(v: Decimal, fm: LLFormat)
    requires fm.minWidth <= 2 && fm.prec >= 1
    ensures DegMin(v, fm) == ZeroPad(Itoa(Degrees(v)), fm.degWidth) + FormatF(Minutes(v), fm.prec)
  {
    FormatFWidthNoPad(Minutes(v), fm.minWidth, fm.prec);
  }

  /** The coordinate text has no comma of its own before the one that precedes the letter. */
  lemma DegMinNumeric(v: Decimal, fm: LLFormat)
    ensures AllNumeric(DegMin(v, fm))
  {
    var d := ZeroPad(Itoa(Degrees(v)), fm.degWidth);
    ZeroPadDigits(Itoa(Degrees(v)), fm.degWidth);
    DigitsNumeric(d);
    FormatFWidthNumeric(Minutes(v), fm.minWidth, fm.prec);
    NumericConcat(d, FormatFWidth(Minutes(v), fm.minWidth, fm.prec));
  }

  // ---------------------------------------------------------------- as intended

  /**
   * calculateLL as its tests expect it: the letter follows the sign of v,
   * and the minutes always have two integer digits ("ddmm.mmmm").
   */
  function CalculateLLIntended(v: Decimal, ds: seq<char>, fm: LLFormat): string
    requires |ds| == 2
  {
    DegMinIntended(v, fm) + "," + [if v.units < 0 then ds[1] else ds[0]]
  }

  /** Degrees padded to degWidth, then minutes padded to two integer digits. */
  function DegMinIntended(v: Decimal, fm: LLFormat): string
  {
    ZeroPad(Itoa(Degrees(v)), fm.degWidth) + ZeroPad(FormatF(Minutes(v), fm.prec), fm.prec + 3)
  }

  lemma DegMinIntendedNumeric(v: Decimal, fm: LLFormat)
    ensures AllNumeric(DegMinIntended(v, fm))
  {
    var d := ZeroPad(Itoa(Degrees(v)), fm.degWidth);
    ZeroPadDigits(Itoa(Degrees(v)), fm.degWidth);
    DigitsNumeric(d);
    FormatFWidthNumeric(Minutes(v), fm.prec + 3, fm.prec);
    NumericConcat(d, FormatFWidth(Minutes(v), fm.prec + 3, fm.prec));
  }

  function CalculateLatIntended(fmts: Formats, lat: Decimal): string
  {
    CalculateLLIntended(lat, ['N', 'S'], fmts.lat)
  }

  function CalculateLonIntended(fmts: Formats, lon: Decimal): string
  {
    CalculateLLIntended(lon, ['E', 'W'], fmts.lon)
  }

  /** The intended letter is the second rune exactly for negative coordinates. */
  lemma IntendedLetter(v: Decimal, ds: seq<char>, fm: LLFormat)
    requires |ds| == 2
    ensures var s := CalculateLLIntended(v, ds, fm);
      s[|s| - 1] == (if v.units < 0 then ds[1] else ds[0])
  {
  }

  /**
   * The intended minutes always have exactly two integer digits: the text is
   * "mm.m…m", prec + 3 characters, even when rounding reaches 60.
   */
  lemma IntendedMinutesWidth(v: Decimal, fm: LLFormat)
    requires fm.prec >= 1
    ensures |ZeroPad(FormatF(Minutes(v), fm.prec), fm.prec + 3)| == fm.prec + 3
  {
    var m := Minutes(v);
    DegreesMinutesSplit(v);
    RoundedAtMost(m, fm.prec, 60);
    ShiftStrictlyMonotone(60, Pow10(2), fm.prec);
    WholeTextShort(Rounded(m, fm.prec), fm.prec, 2);
    FormatFLength(m, fm.prec);
  }
}
