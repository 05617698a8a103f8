/**
 * The VTG (course and speed over ground) sentence: the heading brought into
 * [0, 360) with Go's `math.Mod`, and the speed in knots and km/h.
 */
module Vtg {
  import opened Wrappers
  import opened Fmt
  import opened Nmea

  // ---------------------------------------------------------------- heading

  /**
   * Go's `math.Mod` on integers: the remainder of a truncating division, so
   * a non-zero result has the sign of the dividend (Dafny's `%` is Euclidean).
   * A zero result has no sign here, where Go's would be -0 for a negative dividend.
   */
  function TruncMod(a: int, m: int): (r: int)
    requires m > 0
    ensures a >= 0 ==> 0 <= r < m
    ensures a < 0 ==> -m < r <= 0
  {
    if a >= 0 then a % m else -((-a) % m)
  }

  /** A full turn at any scale is positive. */
  lemma {:induction false} ShiftPositive(k: nat)
    ensures Shift(360, k) >= 360
  {
    ShiftStrictlyMonotone(0, 360, k);
    if k > 0 {
      ShiftPositive(k - 1);
    }
  }

  /** `math.Mod(heading+360, 360)`, exactly. */
  function NormalizeHeading(h: Decimal): Decimal
  {
    var full := Shift(360, h.scale);
    ShiftPositive(h.scale);
    Decimal(TruncMod(h.units + full, full), h.scale)
  }

  /** A heading of at least -360 degrees comes out in [0, 360). */
  lemma HeadingInRange(h: Decimal)
    requires h.units + Shift(360, h.scale) >= 0
    ensures NormalizeHeading(h).scale == h.scale
    ensures 0 <= NormalizeHeading(h).units < Shift(360, h.scale)
  {
    ShiftPositive(h.scale);
  }

  /** The result differs from the heading by whole turns, for every heading. */
  lemma HeadingWholeTurns(h: Decimal)
    ensures (NormalizeHeading(h).units - h.units) % Shift(360, h.scale) == 0
  {
    var full := Shift(360, h.scale);
    ShiftPositive(h.scale);
    var a := h.units + full;
    var d := NormalizeHeading(h).units - h.units;
    if a >= 0 {
      var q := a / full;
      assert a == q * full + a % full;
      assert d == (1 - q) * full;
      ModUnique(d, full, 1 - q, 0);
    } else {
      var q := (-a) / full;
      assert -a == q * full + (-a) % full;
      assert d == (1 + q) * full;
      ModUnique(d, full, 1 + q, 0);
    }
  }

  /** A heading already in [0, 360) is left as it is. */
  lemma HeadingFixesRange(h: Decimal)
    requires 0 <= h.units < Shift(360, h.scale)
    ensures NormalizeHeading(h) == h
  {
    var full := Shift(360, h.scale);
    ModUnique(h.units + full, full, 1, h.units);
  }

  /** For headings of at least -360 degrees, normalising twice is normalising once. */
  lemma HeadingIdempotent(h: Decimal)
    requires h.units + Shift(360, h.scale) >= 0
    ensures NormalizeHeading(NormalizeHeading(h)) == NormalizeHeading(h)
  {
    HeadingInRange(h);
    HeadingFixesRange(NormalizeHeading(h));
  }

  /**
   * Below -360 degrees a heading that is not a whole number of turns stays
   * negative (the sign of the dividend), so normalising is not idempotent
   * there: -721 becomes -1, and -1 becomes 359. A whole number of turns,
   * such as -720, gives zero.
   */
  lemma HeadingBelowRange()
    ensures NormalizeHeading(Decimal(-721, 0)) == Decimal(-1, 0)
    ensures NormalizeHeading(NormalizeHeading(Decimal(-721, 0))) == Decimal(359, 0)
    ensures NormalizeHeading(Decimal(-720, 0)) == Decimal(0, 0)
  {
    assert Shift(360, 0) == 360;
  }

  /**
   * Below -360 degrees the result is never positive, and it is zero exactly
   * when the heading is a whole number of turns.
   */
  lemma HeadingBelowRangeSign(h: Decimal)
    requires h.units + Shift(360, h.scale) < 0
    ensures NormalizeHeading(h).units <= 0
    ensures NormalizeHeading(h).units == 0 <==> h.units % Shift(360, h.scale) == 0
  {
    var full := Shift(360, h.scale);
    ShiftPositive(h.scale);
    var a := h.units + full;
    assert NormalizeHeading(h).units == -((-a) % full);
    if (-a) % full == 0 {
      var q := (-a) / full;
      assert -a == q * full;
      assert h.units == (-q - 1) * full + 0;
      ModUnique(h.units, full, -q - 1, 0);
    }
    if h.units % full == 0 {
      var q := h.units / full;
      assert h.units == q * full;
      assert -a == (-q - 1) * full + 0;
      ModUnique(-a, full, -q - 1, 0);
    }
  }

  // ---------------------------------------------------------------- speed

  /** The factors in the source: knots = m/s * 1.943845249221964, km/h = m/s * 3.6. */
  const KNOTS_PER_MPS: Decimal := Decimal(1943845249221964, 15)
  const KMH_PER_MPS: Decimal := Decimal(36, 1)

  /** `Sprintf(Formats.sog+",U", x)`: a speed with its unit letter. */
  function Speed(fmts: Formats, x: Decimal, unit: string): string
  {
    FormatF(x, fmts.sog) + "," + unit
  }

  /** The mode indicator: always D (differential). */
  const MODE: string := "D"

  /**
   * The body `GPVTG,%s,T,%s,M,%s,%s,%s`: the true and magnetic course carry
   * the same heading text.
   */
  function VTGBody(fmts: Formats, heading: Decimal, sog: Decimal): string
  {
    var headingS := FormatF(NormalizeHeading(heading), fmts.hdg);
    "GPVTG" + "," + headingS + "," + "T" + "," + headingS + "," + "M" + ","
    + Speed(fmts, Mul(sog, KNOTS_PER_MPS), "N") + "," + Speed(fmts, Mul(sog, KMH_PER_MPS), "K") + "," + MODE
  }

  /** ToGPVTG: the framed VTG sentence of a heading and a speed over ground in m/s. */
  function ToGPVTG(fmts: Formats, heading: Decimal, sog: Decimal): string
  {
    Frame(VTGBody(fmts, heading, sog))
  }

  /** The fields of the first five parts of a VTG body. */
  lemma VTGHeadFields(h: string)
    requires ',' !in h
    ensures Split("GPVTG" + "," + h + "," + "T" + "," + h + "," + "M", ',') == ["GPVTG", h, "T", h, "M"]
  {
    var p1 := "GPVTG";
    var p2 := p1 + "," + h;
    var p3 := p2 + "," + "T";
    var p4 := p3 + "," + h;
    SplitNoSep(p1, ',');
    AppendField(p1, h, [p1]);
    AppendField(p2, "T", [p1, h]);
    AppendField(p3, h, [p1, h, "T"]);
    AppendField(p4, "M", [p1, h, "T", h]);
  }

  /** The fields after the first five: knots with "N", km/h with "K", and "D". */
  lemma VTGTailFields(head: string, fields: seq<string>, kn: string, kmh: string)
    requires Split(head, ',') == fields && ',' !in kn && ',' !in kmh
    ensures Split(head + "," + (kn + "," + "N") + "," + (kmh + "," + "K") + "," + "D", ',')
         == fields + [kn, "N", kmh, "K", "D"]
  {
    var p6 := head + "," + (kn + "," + "N");
    var p7 := p6 + "," + (kmh + "," + "K");
    AppendUnit(head, kn, "N", fields);
    AppendUnit(p6, kmh, "K", fields + [kn, "N"]);
    AppendField(p7, "D", fields + [kn, "N"] + [kmh, "K"]);
    assert fields + [kn, "N"] + [kmh, "K"] + ["D"] == fields + [kn, "N", kmh, "K", "D"];
  }

  /** The fields of a VTG body in terms of its rendered parts. */
  lemma VTGFieldsOf(h: string, kn: string, kmh: string)
    requires ',' !in h && ',' !in kn && ',' !in kmh
    ensures Split("GPVTG" + "," + h + "," + "T" + "," + h + "," + "M" + "," + (kn + "," + "N") + ","
                  + (kmh + "," + "K") + "," + "D", ',')
         == ["GPVTG", h, "T", h, "M", kn, "N", kmh, "K", "D"]
  {
    VTGHeadFields(h);
    VTGTailFields("GPVTG" + "," + h + "," + "T" + "," + h + "," + "M", ["GPVTG", h, "T", h, "M"], kn, kmh);
  }

  /**
   * The fields of a VTG body: the sentence name, the heading with "T", the
   * same heading with "M", knots with "N", km/h with "K", and the mode "D"
   * last.
   */
  lemma VTGBodyFields(fmts: Formats, heading: Decimal, sog: Decimal)
    ensures Split(VTGBody(fmts, heading, sog), ',') ==
      ["GPVTG", FormatF(NormalizeHeading(heading), fmts.hdg), "T", FormatF(NormalizeHeading(heading), fmts.hdg), "M",
       FormatF(Mul(sog, KNOTS_PER_MPS), fmts.sog), "N", FormatF(Mul(sog, KMH_PER_MPS), fmts.sog), "K", "D"]
  {
    FormatFNumeric(NormalizeHeading(heading), fmts.hdg);
    FormatFNumeric(Mul(sog, KNOTS_PER_MPS), fmts.sog);
    FormatFNumeric(Mul(sog, KMH_PER_MPS), fmts.sog);
    VTGFieldsOf(FormatF(NormalizeHeading(heading), fmts.hdg), FormatF(Mul(sog, KNOTS_PER_MPS), fmts.sog),
                FormatF(Mul(sog, KMH_PER_MPS), fmts.sog));
  }

  /** The sentence reads back as its body, so its checksum is valid. */
  lemma ToGPVTGReadsBack(fmts: Formats, heading: Decimal, sog: Decimal)
    ensures ParseSentence(ToGPVTG(fmts, heading, sog)) == Some(VTGBody(fmts, heading, sog))
  {
    FrameReadsBack(VTGBody(fmts, heading, sog));
  }
}
