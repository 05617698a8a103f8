/**
 * Worked examples from the repository's unit tests, evaluated on the model:
 * the checksum vectors, coordinates as written and as the tests expect them,
 * the VTG sentence for a resting aircraft, and a GGA body.
 */
module Vectors {
  import opened Fmt
  import opened Nmea
  import opened Gga
  import opened Vtg

  // ---------------------------------------------------------------- coordinates

  lemma Degrees8()
    ensures IntPart(8123456, 6) == 8 && FracPart(8123456, 6) == 123456
  {
    assert IntPart(8123456, 6) == 8;
  }

  lemma Degrees109()
    ensures IntPart(109123456, 6) == 109 && FracPart(109123456, 6) == 123456
  {
    assert IntPart(109123456, 6) == 109;
  }

  /** 0.123456 degrees are 7.40736 minutes, printed "%0.4f" as 7.4074. */
  lemma Minutes123456(v: Decimal)
    requires v.scale == 6 && FracPart(Abs(v.units), 6) == 123456
    ensures FormatF(Minutes(v), 4) == "7.4074"
  {
    assert Minutes(v) == Decimal(7407360, 6);
    assert Shift(7407360, 4) == 74073600000;
    assert Pow10(6) == 1000000;
    assert RoundHalfEven(74073600000, 1000000) == 74074;
    assert IntPart(74074, 4) == 7;
    assert FracPart(74074, 4) == 4074;
    assert Itoa(4074) == "4074";
    assert RenderUnsigned(74074, 4) == "7" + "." + "4074";
  }

  /** -8.123456 as written: one degree digit short, and the letter N. */
  lemma LatSouthAsWritten()
    ensures CalculateLat(DEFAULTS, Decimal(-8123456, 6)) == "087.4074,N"
  {
    var v := Decimal(-8123456, 6);
    Degrees8();
    assert Abs(v.units) == 8123456;
    Minutes123456(v);
    assert ZeroPad(Itoa(8), 2) == "08";
    assert DegMin(v, DEFAULTS.lat) == "08" + "7.4074";
  }

  /** -8.123456 as the unit test expects it. */
  lemma LatSouthIntended()
    ensures CalculateLatIntended(DEFAULTS, Decimal(-8123456, 6)) == "0807.4074,S"
  {
    var v := Decimal(-8123456, 6);
    Degrees8();
    assert Abs(v.units) == 8123456;
    Minutes123456(v);
    assert ZeroPad(Itoa(8), 2) == "08";
    assert ZeroPad(FormatF(Minutes(v), 4), 7) == "07.4074";
    assert DegMinIntended(v, DEFAULTS.lat) == "0807.4074";
  }

  /** -109.123456 as written: the minutes lose their leading zero and the letter stays E. */
  lemma LonWestAsWritten()
    ensures CalculateLon(DEFAULTS, Decimal(-109123456, 6)) == "1097.4074,E"
  {
    var v := Decimal(-109123456, 6);
    Degrees109();
    assert Abs(v.units) == 109123456;
    Minutes123456(v);
    assert ZeroPad(Itoa(109), 3) == "109";
    assert DegMin(v, DEFAULTS.lon) == "109" + "7.4074";
  }

  lemma LonWestIntended()
    ensures CalculateLonIntended(DEFAULTS, Decimal(-109123456, 6)) == "10907.4074,W"
  {
    var v := Decimal(-109123456, 6);
    Degrees109();
    assert Abs(v.units) == 109123456;
    Minutes123456(v);
    assert ZeroPad(Itoa(109), 3) == "109";
    assert ZeroPad(FormatF(Minutes(v), 4), 7) == "07.4074";
    assert DegMinIntended(v, DEFAULTS.lon) == "10907.4074";
  }

  // ---------------------------------------------------------------- VTG

  lemma {:induction false} ZeroParts(prec: nat)
    ensures Shift(0, prec) == 0 && IntPart(0, prec) == 0 && FracPart(0, prec) == 0
  {
    if prec > 0 {
      ZeroParts(prec - 1);
    }
  }

  /** Zero at any scale prints as "0." and prec zeros. */
  lemma FormatZero(x: Decimal, prec: nat)
    requires x.units == 0 && prec >= 1
    ensures FormatF(x, prec) == "0." + Zeros(prec)
  {
    ZeroParts(prec);
    var d := Pow10(x.scale);
    assert 0 / d == 0 && 0 % d == 0;
    assert Rounded(x, prec) == 0;
    assert Zeros(prec - 1) + "0" == Zeros(prec);
  }

  /** The heading and speed texts of a resting aircraft. */
  lemma VtgZerosTexts(heading: Decimal, sog: Decimal)
    requires heading == Decimal(0, 0) && sog == Decimal(0, 0)
    ensures FormatF(NormalizeHeading(heading), 3) == "0.000"
    ensures FormatF(Mul(sog, KNOTS_PER_MPS), 6) == "0.000000"
    ensures FormatF(Mul(sog, KMH_PER_MPS), 6) == "0.000000"
  {
    HeadingFixesRange(heading);
    FormatZero(heading, 3);
    FormatZero(Mul(sog, KNOTS_PER_MPS), 6);
    FormatZero(Mul(sog, KMH_PER_MPS), 6);
    assert Zeros(3) == "000";
    assert Zeros(6) == "000000";
  }

  /** A VTG body is its rendered parts between the fixed fields. */
  lemma VTGBodyOf(fmts: Formats, heading: Decimal, sog: Decimal, h: string, kn: string, kmh: string)
    requires FormatF(NormalizeHeading(heading), fmts.hdg) == h
    requires FormatF(Mul(sog, KNOTS_PER_MPS), fmts.sog) == kn
    requires FormatF(Mul(sog, KMH_PER_MPS), fmts.sog) == kmh
    ensures VTGBody(fmts, heading, sog)
         == "GPVTG" + "," + h + "," + "T" + "," + h + "," + "M" + "," + (kn + "," + "N") + "," + (kmh + "," + "K") + "," + "D"
  {
  }

  lemma VtgZerosText(h: string, k: string)
    requires h == "0.000" && k == "0.000000"
    ensures "GPVTG" + "," + h + "," + "T" + "," + h + "," + "M" + "," + (k + "," + "N") + "," + (k + "," + "K") + "," + "D"
         == "GPVTG,0.000,T,0.000,M," + "0.000000,N,0.000000,K,D"
  {
    var a := "GPVTG" + "," + h + "," + "T" + "," + h + "," + "M" + ",";
    assert a == "GPVTG,0.000,T,0.000,M,";
    var b := (k + "," + "N") + "," + (k + "," + "K") + "," + "D";
    assert b == "0.000000,N,0.000000,K,D";
  }

  lemma VtgZerosBody(heading: Decimal, sog: Decimal)
    requires heading == Decimal(0, 0) && sog == Decimal(0, 0)
    ensures VTGBody(DEFAULTS, heading, sog) == "GPVTG,0.000,T,0.000,M," + "0.000000,N,0.000000,K,D"
  {
    VtgZerosTexts(heading, sog);
    VTGBodyOf(DEFAULTS, heading, sog, "0.000", "0.000000", "0.000000");
    VtgZerosText("0.000", "0.000000");
  }

  /** A framed sentence, given the checksum of its body. */
  lemma FrameOf(body: string, c: bv8)
    requires Checksum(body) == c
    ensures Frame(body) == "$" + body + "*" + Hex2(c) + "\r\n"
  {
  }

  /** The "Zeros" case of the VTG test, checksum included. */
  lemma VtgZeros(heading: Decimal, sog: Decimal)
    requires heading == Decimal(0, 0) && sog == Decimal(0, 0)
    ensures ToGPVTG(DEFAULTS, heading, sog) == "$GPVTG,0.000,T,0.000,M," + "0.000000,N,0.000000,K,D*26\r\n"
  {
    var a, b := "GPVTG,0.000,T,0.000,M,", "0.000000,N,0.000000,K,D";
    VtgZerosBody(heading, sog);
    VtgZerosChecksum();
    FrameOf(a + b, 0x26);
    assert Hex2(0x26) == "26";
    VtgZerosFrame(a, b);
  }

  lemma VtgZerosFrame(a: string, b: string)
    requires a == "GPVTG,0.000,T,0.000,M," && b == "0.000000,N,0.000000,K,D"
    ensures "$" + (a + b) + "*" + "26" + "\r\n" == "$GPVTG,0.000,T,0.000,M," + "0.000000,N,0.000000,K,D*26\r\n"
  {
    assert "$" + (a + b) + "*" + "26" + "\r\n" == ("$" + a) + (b + "*" + "26" + "\r\n");
    assert "$" + a == "$GPVTG,0.000,T,0.000,M,";
    assert b + "*" + "26" + "\r\n" == "0.000000,N,0.000000,K,D*26\r\n";
  }

  /**
   * The fields of the "Negative Heading" case: -45.123 degrees at 10 m/s
   * give 314.877, 19.438452 knots and 36.000000 km/h.
   */
  lemma VtgNegativeHeading()
    ensures Split(VTGBody(DEFAULTS, Decimal(-45123, 3), Decimal(10, 0)), ',')
         == ["GPVTG", "314.877", "T", "314.877", "M", "19.438452", "N", "36.000000", "K", "D"]
  {
    VTGBodyFields(DEFAULTS, Decimal(-45123, 3), Decimal(10, 0));
    HeadingText();
    KnotsText();
    KmhText();
  }

  lemma HeadingText()
    ensures FormatF(NormalizeHeading(Decimal(-45123, 3)), 3) == "314.877"
  {
    assert Shift(360, 3) == 360000;
    assert NormalizeHeading(Decimal(-45123, 3)) == Decimal(314877, 3);
    assert Shift(314877, 3) == 314877000;
    assert Rounded(Decimal(314877, 3), 3) == 314877;
    assert IntPart(314877, 3) == 314 && FracPart(314877, 3) == 877;
    assert RenderUnsigned(314877, 3) == "314" + "." + "877";
  }

  lemma KnotsRounded()
    ensures Rounded(Mul(Decimal(10, 0), KNOTS_PER_MPS), 6) == 19438452
  {
    var x := Mul(Decimal(10, 0), KNOTS_PER_MPS);
    assert x == Decimal(19438452492219640, 15);
    assert Shift(19438452492219640, 3) == 19438452492219640000;
    assert Shift(19438452492219640, 6) == 19438452492219640000000;
    assert Pow10(5) == 100000;
    assert Pow10(10) == 10000000000;
    assert Pow10(15) == 1000000000000000;
    assert RoundHalfEven(19438452492219640000000, 1000000000000000) == 19438452;
  }

  /** `%.Pf` of a value that is not negative, from its rounded whole and fraction digits. */
  lemma FormatFOf(x: Decimal, prec: nat, m: nat, whole: string, frac: string)
    requires x.units >= 0 && prec > 0 && Rounded(x, prec) == m
    requires Itoa(IntPart(m, prec)) == whole && Itoa(FracPart(m, prec)) == frac && |frac| == prec
    ensures FormatF(x, prec) == whole + "." + frac
  {
  }

  lemma KnotsParts()
    ensures IntPart(19438452, 6) == 19 && FracPart(19438452, 6) == 438452
  {
  }

  lemma KnotsDigits()
    ensures Itoa(19) == "19" && Itoa(438452) == "438452"
  {
    assert Itoa(43) == "43";
    assert Itoa(438) == "438";
    assert Itoa(4384) == "4384";
    assert Itoa(43845) == "43845";
  }

  lemma KnotsText()
    ensures FormatF(Mul(Decimal(10, 0), KNOTS_PER_MPS), 6) == "19.438452"
  {
    KnotsRounded();
    KnotsParts();
    KnotsDigits();
    FormatFOf(Mul(Decimal(10, 0), KNOTS_PER_MPS), 6, 19438452, "19", "438452");
  }

  lemma KmhText()
    ensures FormatF(Mul(Decimal(10, 0), KMH_PER_MPS), 6) == "36.000000"
  {
    var x := Mul(Decimal(10, 0), KMH_PER_MPS);
    assert x == Decimal(360, 1);
    assert Shift(360, 6) == 360000000;
    assert Rounded(x, 6) == 36000000;
    assert IntPart(36000000, 6) == 36 && FracPart(36000000, 6) == 0;
    assert Zeros(5) + "0" == "000000";
    assert RenderUnsigned(36000000, 6) == "36" + "." + "000000";
  }

  // ---------------------------------------------------------------- GGA

  lemma TimeText(t: Clock)
    requires t == UtcTime(12, 34, 56, 789000000)
    ensures TimeField(t) == "123456.789"
  {
    assert t.nanos / 1000000 == 789;
    assert Two(12) == "12" && Two(34) == "34" && Two(56) == "56";
    assert Itoa(789) == "789";
  }

  lemma Degrees12()
    ensures IntPart(123456, 4) == 12 && FracPart(123456, 4) == 3456
  {
    assert IntPart(123456, 4) == 12;
  }

  lemma Degrees98()
    ensures IntPart(987654, 4) == 98 && FracPart(987654, 4) == 7654
  {
    assert IntPart(987654, 4) == 98;
  }

  /** 0.3456 degrees are 20.736 minutes, printed "%0.4f" as 20.7360. */
  lemma Minutes3456(v: Decimal)
    requires v.scale == 4 && FracPart(Abs(v.units), 4) == 3456
    ensures FormatF(Minutes(v), 4) == "20.7360"
  {
    assert Minutes(v) == Decimal(207360, 4);
    assert Shift(207360, 4) == 2073600000;
    assert Rounded(Decimal(207360, 4), 4) == 207360;
    Digits207360();
    FormatFOf(Minutes(v), 4, 207360, "20", "7360");
  }

  lemma Digits207360()
    ensures Itoa(IntPart(207360, 4)) == "20" && Itoa(FracPart(207360, 4)) == "7360"
  {
    assert IntPart(207360, 4) == 20 && FracPart(207360, 4) == 7360;
    assert Itoa(73) == "73";
    assert Itoa(736) == "736";
  }

  /** 0.7654 degrees are 45.924 minutes, printed "%0.4f" as 45.9240. */
  lemma Minutes7654(v: Decimal)
    requires v.scale == 4 && FracPart(Abs(v.units), 4) == 7654
    ensures FormatF(Minutes(v), 4) == "45.9240"
  {
    assert Minutes(v) == Decimal(459240, 4);
    assert Shift(459240, 4) == 4592400000;
    assert Rounded(Decimal(459240, 4), 4) == 459240;
    Digits459240();
    FormatFOf(Minutes(v), 4, 459240, "45", "9240");
  }

  lemma Digits459240()
    ensures Itoa(IntPart(459240, 4)) == "45" && Itoa(FracPart(459240, 4)) == "9240"
  {
    assert IntPart(459240, 4) == 45 && FracPart(459240, 4) == 9240;
    assert Itoa(92) == "92";
    assert Itoa(924) == "924";
  }

  /** -12.3456 degrees: 12 degrees and 20.7360 minutes, laid out alike both ways. */
  lemma Lat123456Text(v: Decimal)
    requires v == Decimal(-123456, 4)
    ensures DegMin(v, DEFAULTS.lat) == "1220.7360"
    ensures DegMinIntended(v, DEFAULTS.lat) == "1220.7360"
  {
    Degrees12();
    assert Abs(v.units) == 123456;
    Minutes3456(v);
    assert Itoa(12) == "12";
  }

  /** -98.7654 degrees: 98 degrees and 45.9240 minutes, laid out alike both ways. */
  lemma Lon987654Text(v: Decimal)
    requires v == Decimal(-987654, 4)
    ensures DegMin(v, DEFAULTS.lon) == "09845.9240"
    ensures DegMinIntended(v, DEFAULTS.lon) == "09845.9240"
  {
    Degrees98();
    assert Abs(v.units) == 987654;
    Minutes7654(v);
    assert ZeroPad(Itoa(98), 3) == "098";
  }

  lemma HdopText()
    ensures FormatF(Decimal(12, 1), 1) == "1.2"
  {
    assert Rounded(Decimal(12, 1), 1) == 12;
    assert RenderUnsigned(12, 1) == "1" + "." + "2";
  }

  lemma AltitudeText()
    ensures FormatF(Decimal(1005, 1), 2) == "100.50"
  {
    assert Shift(1005, 2) == 100500;
    assert Rounded(Decimal(1005, 1), 2) == 10050;
    assert IntPart(10050, 2) == 100 && FracPart(10050, 2) == 50;
    assert RenderUnsigned(10050, 2) == "100" + "." + "50";
  }

  lemma SeparationText()
    ensures FormatF(Decimal(50, 0), 2) == "50.00"
  {
    assert Rounded(Decimal(50, 0), 2) == 5000;
    assert IntPart(5000, 2) == 50 && FracPart(5000, 2) == 0;
    assert RenderUnsigned(5000, 2) == "50" + "." + "00";
  }

  /** The texts of the GGA test position, field by field. */
  lemma GGATest3Texts(t: Clock, lat: Decimal, lon: Decimal)
    requires t == UtcTime(12, 34, 56, 789000000) && lat == Decimal(-123456, 4) && lon == Decimal(-987654, 4)
    ensures ["GPGGA", TimeField(t), DegMinIntended(lat, DEFAULTS.lat), if lat.units < 0 then "S" else "N",
             DegMinIntended(lon, DEFAULTS.lon), if lon.units < 0 then "W" else "E", Itoa(1), Itoa(10),
             FormatF(Decimal(12, 1), 1), FormatF(Decimal(1005, 1), DEFAULTS.alt), "M",
             FormatF(Decimal(50, 0), DEFAULTS.alt), "M", "", ""]
         == ["GPGGA", "123456.789", "1220.7360", "S", "09845.9240", "W", "1", "10",
             "1.2", "100.50", "M", "50.00", "M", "", ""]
  {
    TimeText(t);
    Lat123456Text(lat);
    Lon987654Text(lon);
    HdopText();
    AltitudeText();
    SeparationText();
    assert Itoa(1) == "1" && Itoa(10) == "10";
    assert TimeField(t) == "123456.789";
    assert DegMinIntended(lat, DEFAULTS.lat) == "1220.7360";
    assert DegMinIntended(lon, DEFAULTS.lon) == "09845.9240";
    assert FormatF(Decimal(1005, 1), DEFAULTS.alt) == "100.50";
    assert FormatF(Decimal(50, 0), DEFAULTS.alt) == "50.00";
  }

  lemma GGAAsWrittenTexts(t: Clock, lat: Decimal, lon: Decimal)
    requires t == UtcTime(12, 34, 56, 789000000) && lat == Decimal(-123456, 4) && lon == Decimal(-987654, 4)
    ensures ["GPGGA", TimeField(t), DegMin(lat, DEFAULTS.lat), "N", DegMin(lon, DEFAULTS.lon), "E", "8", "12", "0.5",
             FormatF(Decimal(1005, 1), DEFAULTS.alt), "M", FormatF(SEP, DEFAULTS.alt), "M", "", ""]
         == ["GPGGA", "123456.789", "1220.7360", "N", "09845.9240", "E", "8", "12",
             "0.5", "100.50", "M", "0.00", "M", "", ""]
  {
    TimeText(t);
    Lat123456Text(lat);
    Lon987654Text(lon);
    AltitudeText();
    FormatZero(SEP, 2);
    assert Zeros(2) == "00";
    assert TimeField(t) == "123456.789";
    assert DegMin(lat, DEFAULTS.lat) == "1220.7360";
    assert DegMin(lon, DEFAULTS.lon) == "09845.9240";
    assert FormatF(Decimal(1005, 1), DEFAULTS.alt) == "100.50";
    assert FormatF(SEP, DEFAULTS.alt) == "0.00";
  }

  /**
   * "Test 3-South and West" of the GGA test, as the test expects it
   * (generateGGA with a given time, quality, satellites, HDOP and
   * separation), field by field; the checksum of this body is not evaluated.
   */
  lemma GGATest3(t: Clock, lat: Decimal, lon: Decimal)
    requires t == UtcTime(12, 34, 56, 789000000) && lat == Decimal(-123456, 4) && lon == Decimal(-987654, 4)
    ensures var body := GGABody(DEFAULTS, t, CalculateLatIntended(DEFAULTS, lat), CalculateLonIntended(DEFAULTS, lon),
                                1, 10, Decimal(12, 1), Decimal(1005, 1), Decimal(50, 0));
      && GenerateGGAIntended(DEFAULTS, t, lat, lon, 1, 10, Decimal(12, 1), Decimal(1005, 1), Decimal(50, 0)) == Frame(body)
      && Split(body, ',') == ["GPGGA", "123456.789", "1220.7360", "S", "09845.9240", "W", "1", "10",
                              "1.2", "100.50", "M", "50.00", "M", "", ""]
  {
    GenerateGGAIntendedFields(DEFAULTS, t, lat, lon, 1, 10, Decimal(12, 1), Decimal(1005, 1), Decimal(50, 0));
    GGATest3Texts(t, lat, lon);
  }

  /**
   * ToGPGGA on the same position: the fixed quality 8, 12 satellites, HDOP
   * 0.5 and separation 0, and, as written, the letters N and E.
   */
  lemma GGAAsWritten(t: Clock, lat: Decimal, lon: Decimal)
    requires t == UtcTime(12, 34, 56, 789000000) && lat == Decimal(-123456, 4) && lon == Decimal(-987654, 4)
    ensures var body := GGABody(DEFAULTS, t, CalculateLat(DEFAULTS, lat), CalculateLon(DEFAULTS, lon),
                                QUALITY, NUM_SV, HDOP, Decimal(1005, 1), SEP);
      && ToGPGGA(DEFAULTS, t, lat, lon, Decimal(1005, 1)) == Frame(body)
      && Split(body, ',') == ["GPGGA", "123456.789", "1220.7360", "N", "09845.9240", "E", "8", "12",
                              "0.5", "100.50", "M", "0.00", "M", "", ""]
  {
    ToGPGGAFields(DEFAULTS, t, lat, lon, Decimal(1005, 1));
    GGAAsWrittenTexts(t, lat, lon);
  }

  // ---------------------------------------------------------------- checksums

  lemma PfecChecksumChunk1()
    ensures Checksum("PFEC,G") == 0x7B
  {
    PfecChecksumChunk1Head();
    PfecChecksumChunk1Tail();
    ChecksumConcat("PFE", "C,G");
    assert "PFEC,G" == "PFE" + "C,G";
  }

  lemma PfecChecksumChunk1Head()
    ensures Checksum("PFE") == 0x53
  {
    assert ByteXor("PFE", 1) == 0x50;
    assert ByteXor("PFE", 2) == 0x16;
  }

  lemma PfecChecksumChunk1Tail()
    ensures Checksum("C,G") == 0x28
  {
    assert ByteXor("C,G", 1) == 0x43;
    assert ByteXor("C,G", 2) == 0x6F;
  }

  lemma PfecChecksumChunk2()
    ensures Checksum("Pint,R") == 0x5D
  {
    PfecChecksumChunk2Head();
    PfecChecksumChunk2Tail();
    ChecksumConcat("Pin", "t,R");
    assert "Pint,R" == "Pin" + "t,R";
  }

  lemma PfecChecksumChunk2Head()
    ensures Checksum("Pin") == 0x57
  {
    assert ByteXor("Pin", 1) == 0x50;
    assert ByteXor("Pin", 2) == 0x39;
  }

  lemma PfecChecksumChunk2Tail()
    ensures Checksum("t,R") == 0x0A
  {
    assert ByteXor("t,R", 1) == 0x74;
    assert ByteXor("t,R", 2) == 0x58;
  }

  lemma PfecChecksumChunk3()
    ensures Checksum("MC05") == 0x0B
  {
    PfecChecksumChunk3Head();
    PfecChecksumChunk3Tail();
    ChecksumConcat("MC", "05");
    assert "MC05" == "MC" + "05";
  }

  lemma PfecChecksumChunk3Head()
    ensures Checksum("MC") == 0x0E
  {
    assert ByteXor("MC", 1) == 0x4D;
  }

  lemma PfecChecksumChunk3Tail()
    ensures Checksum("05") == 0x05
  {
    assert ByteXor("05", 1) == 0x30;
  }

  /** The first case of the checksum test: 0x2D. */
  lemma PfecChecksum()
    ensures Checksum("PFEC,GPint,RMC05") == 0x2D
  {
    PfecChecksumChunk1();
    PfecChecksumChunk2();
    PfecChecksumChunk3();
    ChecksumConcat("PFEC,G" + "Pint,R", "MC05");
    ChecksumConcat("PFEC,G", "Pint,R");
    assert "PFEC,GPint,RMC05" == "PFEC,G" + "Pint,R" + "MC05";
  }

  lemma Gpgll1Chunk1()
    ensures Checksum("GPGLL,") == 0x7C
  {
    Gpgll1Chunk1Head();
    Gpgll1Chunk1Tail();
    ChecksumConcat("GPG", "LL,");
    assert "GPGLL," == "GPG" + "LL,";
  }

  lemma Gpgll1Chunk1Head()
    ensures Checksum("GPG") == 0x50
  {
    assert ByteXor("GPG", 1) == 0x47;
    assert ByteXor("GPG", 2) == 0x17;
  }

  lemma Gpgll1Chunk1Tail()
    ensures Checksum("LL,") == 0x2C
  {
    assert ByteXor("LL,", 1) == 0x4C;
    assert ByteXor("LL,", 2) == 0x00;
  }

  lemma Gpgll1Chunk2()
    ensures Checksum("4807.0") == 0x15
  {
    Gpgll1Chunk2Head();
    Gpgll1Chunk2Tail();
    ChecksumConcat("480", "7.0");
    assert "4807.0" == "480" + "7.0";
  }

  lemma Gpgll1Chunk2Head()
    ensures Checksum("480") == 0x3C
  {
    assert ByteXor("480", 1) == 0x34;
    assert ByteXor("480", 2) == 0x0C;
  }

  lemma Gpgll1Chunk2Tail()
    ensures Checksum("7.0") == 0x29
  {
    assert ByteXor("7.0", 1) == 0x37;
    assert ByteXor("7.0", 2) == 0x19;
  }

  lemma Gpgll1Chunk3()
    ensures Checksum("38,N,") == 0x45
  {
    Gpgll1Chunk3Head();
    Gpgll1Chunk3Tail();
    ChecksumConcat("38", ",N,");
    assert "38,N," == "38" + ",N,";
  }

  lemma Gpgll1Chunk3Head()
    ensures Checksum("38") == 0x0B
  {
    assert ByteXor("38", 1) == 0x33;
  }

  lemma Gpgll1Chunk3Tail()
    ensures Checksum(",N,") == 0x4E
  {
    assert ByteXor(",N,", 1) == 0x2C;
    assert ByteXor(",N,", 2) == 0x62;
  }

  lemma Gpgll1()
    ensures Checksum("GPGLL,4807.038,N,") == 0x2C
  {
    Gpgll1Chunk1();
    Gpgll1Chunk2();
    Gpgll1Chunk3();
    ChecksumConcat("GPGLL," + "4807.0", "38,N,");
    ChecksumConcat("GPGLL,", "4807.0");
    assert "GPGLL,4807.038,N," == "GPGLL," + "4807.0" + "38,N,";
  }

  lemma Gpgll2Chunk1()
    ensures Checksum("01131.") == 0x1C
  {
    Gpgll2Chunk1Head();
    Gpgll2Chunk1Tail();
    ChecksumConcat("011", "31.");
    assert "01131." == "011" + "31.";
  }

  lemma Gpgll2Chunk1Head()
    ensures Checksum("011") == 0x30
  {
    assert ByteXor("011", 1) == 0x30;
    assert ByteXor("011", 2) == 0x01;
  }

  lemma Gpgll2Chunk1Tail()
    ensures Checksum("31.") == 0x2C
  {
    assert ByteXor("31.", 1) == 0x33;
    assert ByteXor("31.", 2) == 0x02;
  }

  lemma Gpgll2Chunk2()
    ensures Checksum("000,E,") == 0x75
  {
    Gpgll2Chunk2Head();
    Gpgll2Chunk2Tail();
    ChecksumConcat("000", ",E,");
    assert "000,E," == "000" + ",E,";
  }

  lemma Gpgll2Chunk2Head()
    ensures Checksum("000") == 0x30
  {
    assert ByteXor("000", 1) == 0x30;
    assert ByteXor("000", 2) == 0x00;
  }

  lemma Gpgll2Chunk2Tail()
    ensures Checksum(",E,") == 0x45
  {
    assert ByteXor(",E,", 1) == 0x2C;
    assert ByteXor(",E,", 2) == 0x69;
  }

  lemma Gpgll2Chunk3()
    ensures Checksum("123519") == 0x0D
  {
    Gpgll2Chunk3Head();
    Gpgll2Chunk3Tail();
    ChecksumConcat("123", "519");
    assert "123519" == "123" + "519";
  }

  lemma Gpgll2Chunk3Head()
    ensures Checksum("123") == 0x30
  {
    assert ByteXor("123", 1) == 0x31;
    assert ByteXor("123", 2) == 0x03;
  }

  lemma Gpgll2Chunk3Tail()
    ensures Checksum("519") == 0x3D
  {
    assert ByteXor("519", 1) == 0x35;
    assert ByteXor("519", 2) == 0x04;
  }

  lemma Gpgll2Chunk4()
    ensures Checksum(",A") == 0x6D
  {
    assert ByteXor(",A", 1) == 0x2C;
  }

  lemma Gpgll2()
    ensures Checksum("01131.000,E,123519,A") == 0x09
  {
    Gpgll2Chunk1();
    Gpgll2Chunk2();
    Gpgll2Chunk3();
    Gpgll2Chunk4();
    ChecksumConcat("01131." + "000,E," + "123519", ",A");
    ChecksumConcat("01131." + "000,E,", "123519");
    ChecksumConcat("01131.", "000,E,");
    assert "01131.000,E,123519,A" == "01131." + "000,E," + "123519" + ",A";
  }

  /** The GPGLL case of the checksum test: 0x25. */
  lemma GpgllChecksum()
    ensures Checksum("GPGLL,4807.038,N," + "01131.000,E,123519,A") == 0x25
  {
    Gpgll1();
    Gpgll2();
    ChecksumConcat("GPGLL,4807.038,N,", "01131.000,E,123519,A");
  }

  lemma VtgZeros1Chunk1()
    ensures Checksum("GPVTG,") == 0x7E
  {
    VtgZeros1Chunk1Head();
    VtgZeros1Chunk1Tail();
    ChecksumConcat("GPV", "TG,");
    assert "GPVTG," == "GPV" + "TG,";
  }

  lemma VtgZeros1Chunk1Head()
    ensures Checksum("GPV") == 0x41
  {
    assert ByteXor("GPV", 1) == 0x47;
    assert ByteXor("GPV", 2) == 0x17;
  }

  lemma VtgZeros1Chunk1Tail()
    ensures Checksum("TG,") == 0x3F
  {
    assert ByteXor("TG,", 1) == 0x54;
    assert ByteXor("TG,", 2) == 0x13;
  }

  lemma VtgZeros1Chunk2()
    ensures Checksum("0.000,") == 0x02
  {
    VtgZeros1Chunk2Head();
    VtgZeros1Chunk2Tail();
    ChecksumConcat("0.0", "00,");
    assert "0.000," == "0.0" + "00,";
  }

  lemma VtgZeros1Chunk2Head()
    ensures Checksum("0.0") == 0x2E
  {
    assert ByteXor("0.0", 1) == 0x30;
    assert ByteXor("0.0", 2) == 0x1E;
  }

  lemma VtgZeros1Chunk2Tail()
    ensures Checksum("00,") == 0x2C
  {
    assert ByteXor("00,", 1) == 0x30;
    assert ByteXor("00,", 2) == 0x00;
  }

  lemma VtgZeros1Chunk3()
    ensures Checksum("T,0.00") == 0x66
  {
    VtgZeros1Chunk3Head();
    VtgZeros1Chunk3Tail();
    ChecksumConcat("T,0", ".00");
    assert "T,0.00" == "T,0" + ".00";
  }

  lemma VtgZeros1Chunk3Head()
    ensures Checksum("T,0") == 0x48
  {
    assert ByteXor("T,0", 1) == 0x54;
    assert ByteXor("T,0", 2) == 0x78;
  }

  lemma VtgZeros1Chunk3Tail()
    ensures Checksum(".00") == 0x2E
  {
    assert ByteXor(".00", 1) == 0x2E;
    assert ByteXor(".00", 2) == 0x1E;
  }

  lemma VtgZeros1Chunk4()
    ensures Checksum("0,M,") == 0x7D
  {
    VtgZeros1Chunk4Head();
    VtgZeros1Chunk4Tail();
    ChecksumConcat("0,", "M,");
    assert "0,M," == "0," + "M,";
  }

  lemma VtgZeros1Chunk4Head()
    ensures Checksum("0,") == 0x1C
  {
    assert ByteXor("0,", 1) == 0x30;
  }

  lemma VtgZeros1Chunk4Tail()
    ensures Checksum("M,") == 0x61
  {
    assert ByteXor("M,", 1) == 0x4D;
  }

  lemma VtgZeros1()
    ensures Checksum("GPVTG,0.000,T,0.000,M,") == 0x67
  {
    VtgZeros1Chunk1();
    VtgZeros1Chunk2();
    VtgZeros1Chunk3();
    VtgZeros1Chunk4();
    ChecksumConcat("GPVTG," + "0.000," + "T,0.00", "0,M,");
    ChecksumConcat("GPVTG," + "0.000,", "T,0.00");
    ChecksumConcat("GPVTG,", "0.000,");
    assert "GPVTG,0.000,T,0.000,M," == "GPVTG," + "0.000," + "T,0.00" + "0,M,";
  }

  lemma VtgZeros2Chunk1()
    ensures Checksum("0.0000") == 0x1E
  {
    VtgZeros2Chunk1Head();
    VtgZeros2Chunk1Tail();
    ChecksumConcat("0.0", "000");
    assert "0.0000" == "0.0" + "000";
  }

  lemma VtgZeros2Chunk1Head()
    ensures Checksum("0.0") == 0x2E
  {
    assert ByteXor("0.0", 1) == 0x30;
    assert ByteXor("0.0", 2) == 0x1E;
  }

  lemma VtgZeros2Chunk1Tail()
    ensures Checksum("000") == 0x30
  {
    assert ByteXor("000", 1) == 0x30;
    assert ByteXor("000", 2) == 0x00;
  }

  lemma VtgZeros2Chunk2()
    ensures Checksum("00,N,0") == 0x7E
  {
    VtgZeros2Chunk2Head();
    VtgZeros2Chunk2Tail();
    ChecksumConcat("00,", "N,0");
    assert "00,N,0" == "00," + "N,0";
  }

  lemma VtgZeros2Chunk2Head()
    ensures Checksum("00,") == 0x2C
  {
    assert ByteXor("00,", 1) == 0x30;
    assert ByteXor("00,", 2) == 0x00;
  }

  lemma VtgZeros2Chunk2Tail()
    ensures Checksum("N,0") == 0x52
  {
    assert ByteXor("N,0", 1) == 0x4E;
    assert ByteXor("N,0", 2) == 0x62;
  }

  lemma VtgZeros2Chunk3()
    ensures Checksum(".00000") == 0x1E
  {
    VtgZeros2Chunk3Head();
    VtgZeros2Chunk3Tail();
    ChecksumConcat(".00", "000");
    assert ".00000" == ".00" + "000";
  }

  lemma VtgZeros2Chunk3Head()
    ensures Checksum(".00") == 0x2E
  {
    assert ByteXor(".00", 1) == 0x2E;
    assert ByteXor(".00", 2) == 0x1E;
  }

  lemma VtgZeros2Chunk3Tail()
    ensures Checksum("000") == 0x30
  {
    assert ByteXor("000", 1) == 0x30;
    assert ByteXor("000", 2) == 0x00;
  }

  lemma VtgZeros2Chunk4()
    ensures Checksum("0,K,D") == 0x3F
  {
    VtgZeros2Chunk4Head();
    VtgZeros2Chunk4Tail();
    ChecksumConcat("0,", "K,D");
    assert "0,K,D" == "0," + "K,D";
  }

  lemma VtgZeros2Chunk4Head()
    ensures Checksum("0,") == 0x1C
  {
    assert ByteXor("0,", 1) == 0x30;
  }

  lemma VtgZeros2Chunk4Tail()
    ensures Checksum("K,D") == 0x23
  {
    assert ByteXor("K,D", 1) == 0x4B;
    assert ByteXor("K,D", 2) == 0x67;
  }

  lemma VtgZeros2()
    ensures Checksum("0.000000,N,0.000000,K,D") == 0x41
  {
    VtgZeros2Chunk1();
    VtgZeros2Chunk2();
    VtgZeros2Chunk3();
    VtgZeros2Chunk4();
    ChecksumConcat("0.0000" + "00,N,0" + ".00000", "0,K,D");
    ChecksumConcat("0.0000" + "00,N,0", ".00000");
    ChecksumConcat("0.0000", "00,N,0");
    assert "0.000000,N,0.000000,K,D" == "0.0000" + "00,N,0" + ".00000" + "0,K,D";
  }

  /** The checksum of the resting VTG body: 0x26. */
  lemma VtgZerosChecksum()
    ensures Checksum("GPVTG,0.000,T,0.000,M," + "0.000000,N,0.000000,K,D") == 0x26
  {
    VtgZeros1();
    VtgZeros2();
    ChecksumConcat("GPVTG,0.000,T,0.000,M,", "0.000000,N,0.000000,K,D");
  }
}
