/**
 * The GGA (fix data) sentence. The clock that Go reads with `time.Now()` is a
 * parameter, as is the precision profile.
 */
module Gga {
  import opened Fmt
  import opened Nmea

  /** A UTC time of day, as `time.Time` holds it. */
  datatype UtcTime = UtcTime(hour: nat, minute: nat, second: nat, nanos: nat)

  type Clock = t: UtcTime | t.hour < 24 && t.minute < 60 && t.second < 60 && t.nanos < 1000000000
    witness UtcTime(0, 0, 0, 0)

  /** `%02d` */
  function Two(n: nat): string
  {
    ZeroPad(Itoa(n), 2)
  }

  /** `t.Format("150405.000")`: HHMMSS, a point, and the milliseconds (truncated). */
  function TimeField(t: Clock): string
  {
    Two(t.hour) + Two(t.minute) + Two(t.second) + "." + ZeroPad(Itoa(t.nanos / 1000000), 3)
  }

  lemma PaddedReadsBack(n: nat, width: nat)
    requires n < Pow10(width) && width >= 1
    ensures var d := ZeroPad(Itoa(n), width); |d| == width && AllDigits(d) && Atoi(d) == n
  {
    AtoiItoa(n);
    ItoaFits(n, width);
    ZeroPadDigits(Itoa(n), width);
  }

  /**
   * The time field is always ten characters "HHMMSS.mmm", and each part reads
   * back as the hour, minute, second and whole milliseconds of t.
   */
  lemma TimeFieldLayout(t: Clock)
    ensures var f := TimeField(t);
      && |f| == 10 && f[6] == '.'
      && AllDigits(f[..6]) && AllDigits(f[7..])
      && Atoi(f[0..2]) == t.hour && Atoi(f[2..4]) == t.minute && Atoi(f[4..6]) == t.second
      && Atoi(f[7..]) == t.nanos / 1000000
  {
    assert Pow10(2) == 100 && Pow10(3) == 1000;
    PaddedReadsBack(t.hour, 2);
    PaddedReadsBack(t.minute, 2);
    PaddedReadsBack(t.second, 2);
    PaddedReadsBack(t.nanos / 1000000, 3);
    var f := TimeField(t);
    assert f[0..2] == Two(t.hour);
    assert f[2..4] == Two(t.minute);
    assert f[4..6] == Two(t.second);
    assert f[7..] == ZeroPad(Itoa(t.nanos / 1000000), 3);
  }

  // ---------------------------------------------------------------- the sentence

  /** The synthetic fix: quality 8 (simulated), 12 satellites, HDOP 0.5, separation 0.0. */
  const QUALITY: nat := 8
  const NUM_SV: nat := 12
  const HDOP: Decimal := Decimal(5, 1)
  const SEP: Decimal := Decimal(0, 0)

  /** `Sprintf(Formats.alt+",M", x)`: a height in metres with its unit. */
  function Metres(fmts: Formats, x: Decimal): string
  {
    FormatF(x, fmts.alt) + "," + "M"
  }

  /**
   * The body `GPGGA,%s,%s,%s,%d,%d,%0.1f,%s,%s,%s,%s` given the rendered
   * latitude and longitude; the two DGPS fields (age and station) are empty.
   */
  function GGABody(fmts: Formats, t: Clock, laS: string, loS: string, quality: nat, numSV: nat,
                   hdop: Decimal, alt: Decimal, sep: Decimal): string
  {
    "GPGGA" + "," + TimeField(t) + "," + laS + "," + loS + "," + Itoa(quality) + "," + Itoa(numSV)
    + "," + FormatF(hdop, 1) + "," + Metres(fmts, alt) + "," + Metres(fmts, sep) + "," + "" + "," + ""
  }

  /** ToGPGGA: the framed GGA sentence of a synthetic fix at t. */
  function ToGPGGA(fmts: Formats, t: Clock, lat: Decimal, lon: Decimal, alt: Decimal): string
  {
    Frame(GGABody(fmts, t, CalculateLat(fmts, lat), CalculateLon(fmts, lon), QUALITY, NUM_SV, HDOP, alt, SEP))
  }

  /**
   * The generalised builder of the test suite (quality, satellites, HDOP and
   * separation as arguments), with coordinates rendered as intended.
   */
  function GenerateGGAIntended(fmts: Formats, t: Clock, lat: Decimal, lon: Decimal, quality: nat,
                               numSV: nat, hdop: Decimal, alt: Decimal, sep: Decimal): string
  {
    Frame(GGABody(fmts, t, CalculateLatIntended(fmts, lat), CalculateLonIntended(fmts, lon),
                  quality, numSV, hdop, alt, sep))
  }

  lemma NoComma(s: string)
    requires AllNumeric(s)
    ensures ',' !in s
  {
  }

  lemma TimeFieldNumeric(t: Clock)
    ensures AllNumeric(TimeField(t))
  {
    TimeFieldLayout(t);
    var f := TimeField(t);
    assert f == f[..6] + "." + f[7..];
    DigitsNumeric(f[..6]);
    DigitsNumeric(f[7..]);
    NumericConcat(f[..6], ".");
    NumericConcat(f[..6] + ".", f[7..]);
  }

  /** The head of a GGA body, up to the longitude, in terms of its rendered parts. */
  lemma GGAHeadFields(ts: string, dmLat: string, ns: string, dmLon: string, ew: string)
    requires ',' !in ts && ',' !in dmLat && ',' !in ns && ',' !in dmLon && ',' !in ew
    ensures Split("GPGGA" + "," + ts + "," + (dmLat + "," + ns) + "," + (dmLon + "," + ew), ',')
         == ["GPGGA", ts, dmLat, ns, dmLon, ew]
  {
    var p1 := "GPGGA";
    var p2 := p1 + "," + ts;
    var p3 := p2 + "," + (dmLat + "," + ns);
    assert Split(p2, ',') == ["GPGGA", ts] by {
      SplitNoSep(p1, ',');
      SplitNoSep(ts, ',');
      FieldAppend(p1, ts, ',', [p1], [ts]);
    }
    assert Split(p3, ',') == ["GPGGA", ts, dmLat, ns] by {
      TwoFields(dmLat, ',', ns);
      FieldAppend(p2, dmLat + "," + ns, ',', ["GPGGA", ts], [dmLat, ns]);
    }
    TwoFields(dmLon, ',', ew);
    FieldAppend(p3, dmLon + "," + ew, ',', ["GPGGA", ts, dmLat, ns], [dmLon, ew]);
  }

  /** The quality, satellites and HDOP fields after the longitude. */
  lemma GGAFixFields(head: string, acc: seq<string>, q: string, n: string, h: string)
    requires Split(head, ',') == acc
    requires ',' !in q && ',' !in n && ',' !in h
    ensures Split(head + "," + q + "," + n + "," + h, ',') == acc + [q, n, h]
  {
    var p5 := head + "," + q;
    var p6 := p5 + "," + n;
    AppendField(head, q, acc);
    AppendField(p5, n, acc + [q]);
    AppendField(p6, h, acc + [q] + [n]);
    assert acc + [q] + [n] + [h] == acc + [q, n, h];
  }

  /** The altitude, separation and the two empty DGPS fields at the end. */
  lemma GGAHeightFields(head: string, acc: seq<string>, a: string, sp: string)
    requires Split(head, ',') == acc
    requires ',' !in a && ',' !in sp
    ensures Split(head + "," + (a + "," + "M") + "," + (sp + "," + "M") + "," + "" + "," + "", ',')
         == acc + [a, "M", sp, "M", "", ""]
  {
    var p8 := head + "," + (a + "," + "M");
    var p9 := p8 + "," + (sp + "," + "M");
    var p10 := p9 + "," + "";
    AppendUnit(head, a, "M", acc);
    AppendUnit(p8, sp, "M", acc + [a, "M"]);
    AppendField(p9, "", acc + [a, "M"] + [sp, "M"]);
    AppendField(p10, "", acc + [a, "M"] + [sp, "M"] + [""]);
    assert acc + [a, "M"] + [sp, "M"] + [""] + [""] == acc + [a, "M", sp, "M", "", ""];
  }

  /** The fields of a GGA body in terms of its rendered parts. */
  lemma GGAFieldsOf(ts: string, dmLat: string, ns: string, dmLon: string, ew: string,
                    q: string, n: string, h: string, a: string, sp: string)
    requires ',' !in ts && ',' !in dmLat && ',' !in ns && ',' !in dmLon && ',' !in ew
    requires ',' !in q && ',' !in n && ',' !in h && ',' !in a && ',' !in sp
    ensures Split("GPGGA" + "," + ts + "," + (dmLat + "," + ns) + "," + (dmLon + "," + ew) + "," + q + "," + n
                  + "," + h + "," + (a + "," + "M") + "," + (sp + "," + "M") + "," + "" + "," + "", ',')
         == ["GPGGA", ts, dmLat, ns, dmLon, ew, q, n, h, a, "M", sp, "M", "", ""]
  {
    var head := "GPGGA" + "," + ts + "," + (dmLat + "," + ns) + "," + (dmLon + "," + ew);
    var acc := ["GPGGA", ts, dmLat, ns, dmLon, ew];
    GGAHeadFields(ts, dmLat, ns, dmLon, ew);
    GGAFixFields(head, acc, q, n, h);
    GGAHeightFields(head + "," + q + "," + n + "," + h, acc + [q, n, h], a, sp);
    assert acc + [q, n, h] + [a, "M", sp, "M", "", ""] == ["GPGGA", ts, dmLat, ns, dmLon, ew, q, n, h, a, "M", sp, "M", "", ""];
  }

  /**
   * The fields of a GGA body: the sentence name and 14 fields, time,
   * latitude, hemisphere, longitude, hemisphere, quality, satellites, HDOP,
   * altitude, "M", separation, "M" and the two empty DGPS fields.
   */
  lemma GGABodyFields(fmts: Formats, t: Clock, dmLat: string, ns: string, dmLon: string, ew: string,
                      quality: nat, numSV: nat, hdop: Decimal, alt: Decimal, sep: Decimal)
    requires AllNumeric(dmLat) && AllNumeric(dmLon) && ',' !in ns && ',' !in ew
    ensures Split(GGABody(fmts, t, dmLat + "," + ns, dmLon + "," + ew, quality, numSV, hdop, alt, sep), ',')
         == ["GPGGA", TimeField(t), dmLat, ns, dmLon, ew, Itoa(quality), Itoa(numSV),
             FormatF(hdop, 1), FormatF(alt, fmts.alt), "M", FormatF(sep, fmts.alt), "M", "", ""]
  {
    TimeFieldNumeric(t);
    DigitsNumeric(Itoa(quality));
    DigitsNumeric(Itoa(numSV));
    FormatFNumeric(hdop, 1);
    FormatFNumeric(alt, fmts.alt);
    FormatFNumeric(sep, fmts.alt);
    GGAFieldsOf(TimeField(t), dmLat, ns, dmLon, ew, Itoa(quality), Itoa(numSV), FormatF(hdop, 1),
                FormatF(alt, fmts.alt), FormatF(sep, fmts.alt));
  }

  /**
   * As written, the synthetic fix reports quality "8", "12" satellites and
   * HDOP "0.5", and the hemisphere fields are always "N" and "E".
   */
  lemma ToGPGGAFields(fmts: Formats, t: Clock, lat: Decimal, lon: Decimal, alt: Decimal)
    ensures var body := GGABody(fmts, t, CalculateLat(fmts, lat), CalculateLon(fmts, lon), QUALITY, NUM_SV, HDOP, alt, SEP);
      && ToGPGGA(fmts, t, lat, lon, alt) == Frame(body)
      && Split(body, ',') ==
         ["GPGGA", TimeField(t), DegMin(lat, fmts.lat), "N", DegMin(lon, fmts.lon), "E", "8", "12", "0.5",
          FormatF(alt, fmts.alt), "M", FormatF(SEP, fmts.alt), "M", "", ""]
  {
    DegMinNumeric(lat, fmts.lat);
    DegMinNumeric(lon, fmts.lon);
    assert CalculateLat(fmts, lat) == DegMin(lat, fmts.lat) + "," + "N";
    assert CalculateLon(fmts, lon) == DegMin(lon, fmts.lon) + "," + "E";
    Rounded05();
    assert Itoa(QUALITY) == "8" && Itoa(NUM_SV) == "12";
    GGABodyFields(fmts, t, DegMin(lat, fmts.lat), "N", DegMin(lon, fmts.lon), "E", QUALITY, NUM_SV, HDOP, alt, SEP);
  }

  /**
   * The generalised builder of the tests puts its arguments in the same
   * slots, with the hemisphere letters following the signs of lat and lon.
   */
  lemma GenerateGGAIntendedFields(fmts: Formats, t: Clock, lat: Decimal, lon: Decimal, quality: nat,
                                  numSV: nat, hdop: Decimal, alt: Decimal, sep: Decimal)
    ensures var body := GGABody(fmts, t, CalculateLatIntended(fmts, lat), CalculateLonIntended(fmts, lon),
                                quality, numSV, hdop, alt, sep);
      && GenerateGGAIntended(fmts, t, lat, lon, quality, numSV, hdop, alt, sep) == Frame(body)
      && Split(body, ',') ==
         ["GPGGA", TimeField(t), DegMinIntended(lat, fmts.lat), if lat.units < 0 then "S" else "N",
          DegMinIntended(lon, fmts.lon), if lon.units < 0 then "W" else "E", Itoa(quality), Itoa(numSV),
          FormatF(hdop, 1), FormatF(alt, fmts.alt), "M", FormatF(sep, fmts.alt), "M", "", ""]
  {
    var ns := if lat.units < 0 then "S" else "N";
    var ew := if lon.units < 0 then "W" else "E";
    DegMinIntendedNumeric(lat, fmts.lat);
    DegMinIntendedNumeric(lon, fmts.lon);
    assert CalculateLatIntended(fmts, lat) == DegMinIntended(lat, fmts.lat) + "," + ns;
    assert CalculateLonIntended(fmts, lon) == DegMinIntended(lon, fmts.lon) + "," + ew;
    GGABodyFields(fmts, t, DegMinIntended(lat, fmts.lat), ns, DegMinIntended(lon, fmts.lon), ew,
                  quality, numSV, hdop, alt, sep);
  }

  lemma Rounded05()
    ensures FormatF(HDOP, 1) == "0.5"
  {
    assert Rounded(HDOP, 1) == 5;
    assert RenderUnsigned(5, 1) == "0.5";
  }
}
