/**
 * The outputters: each turns a position into one NMEA sentence. `GGA`
 * reports the latitude, longitude and elevation, `VTG` the true heading and
 * the speed over ground. `Other` stands for any further implementation of
 * the `Outputter` interface, which may fail.
 */
module Outputters {
  import opened Wrappers
  import opened Fmt
  import opened Nmea
  import opened Gga
  import opened Vtg
  import opened Bytes
  import opened Rpos

  /**
   * The values the encoder sees for a position's bit patterns: a float64
   * field, a float32 field (widened to float64 without loss), and the speed
   * over ground `SOG()` computed from the east and south velocities.
   */
  datatype Numbers = Numbers(float64: u64 -> Decimal, float32: u32 -> Decimal, sog: (u32, u32) -> Decimal)

  datatype Outputter = GGA | VTG | Other(output: Position -> Result<string, string>)

  /** `Output` of each outputter; t is the clock `ToGPGGA` reads. */
  function Output(o: Outputter, fmts: Formats, num: Numbers, t: Clock, p: Position): Result<string, string>
  {
    match o
    case GGA => Ok(ToGPGGA(fmts, t, num.float64(p.datLat), num.float64(p.datLon), num.float64(p.datEle)))
    case VTG => Ok(ToGPVTG(fmts, num.float32(p.vehPsiLoc), num.sog(p.vxWrl, p.vzWrl)))
    case Other(f) => f(p)
  }

  /** A framed sentence starts with "$" and the start of its body. */
  lemma FramePrefix(body: string, head: string)
    requires |head| <= |body| && body[..|head|] == head
    ensures |Frame(body)| > |head| && Frame(body)[..|head| + 1] == "$" + head
  {
    assert Frame(body)[1..|head| + 1] == body[..|head|];
  }

  /** A body whose first field is name frames into a sentence starting "$name," that reads back. */
  lemma Sentence(body: string, fields: seq<string>, name: string, prefix: string)
    requires Split(body, ',') == fields && |fields| > 1 && fields[0] == name && prefix == "$" + name + ","
    ensures var s := Frame(body);
      |s| > |prefix| && s[..|prefix|] == prefix && ParseSentence(s) == Some(body)
  {
    SplitHead(body, ',');
    assert body[..|name| + 1] == name + ",";
    FramePrefix(body, name + ",");
    FrameReadsBack(body);
    assert "$" + (name + ",") == prefix;
  }

  lemma SentenceName(name: string, prefix: string)
    requires (name == "GPGGA" && prefix == "$GPGGA,") || (name == "GPVTG" && prefix == "$GPVTG,")
    ensures prefix == "$" + name + "," && |name| == 5
  {
  }

  /**
   * GGA never fails. Its sentence starts "$GPGGA,", carries a valid
   * checksum, and puts the latitude first and the longitude second even
   * though the record holds the longitude first; the elevation is the
   * altitude.
   */
  lemma GGAOutput(fmts: Formats, num: Numbers, t: Clock, p: Position)
    ensures var r := Output(GGA, fmts, num, t, p);
      && r.Ok? && |r.value| > 7 && r.value[..7] == "$GPGGA,"
      && ParseSentence(r.value).Some?
      && Split(ParseSentence(r.value).value, ',') ==
         ["GPGGA", TimeField(t), DegMin(num.float64(p.datLat), fmts.lat), "N", DegMin(num.float64(p.datLon), fmts.lon),
          "E", "8", "12", "0.5", FormatF(num.float64(p.datEle), fmts.alt), "M", FormatF(SEP, fmts.alt), "M", "", ""]
  {
    var lat, lon, ele := num.float64(p.datLat), num.float64(p.datLon), num.float64(p.datEle);
    var body := GGABody(fmts, t, CalculateLat(fmts, lat), CalculateLon(fmts, lon), QUALITY, NUM_SV, HDOP, ele, SEP);
    ToGPGGAFields(fmts, t, lat, lon, ele);
    SentenceName("GPGGA", "$GPGGA,");
    Sentence(body, Split(body, ','), "GPGGA", "$GPGGA,");
  }

  /**
   * VTG never fails. Its sentence starts "$GPVTG,", carries a valid checksum,
   * and the true heading fills both the true and the magnetic course.
   */
  lemma VTGOutput(fmts: Formats, num: Numbers, t: Clock, p: Position)
    ensures var r := Output(VTG, fmts, num, t, p);
      var heading := FormatF(NormalizeHeading(num.float32(p.vehPsiLoc)), fmts.hdg);
      var sog := num.sog(p.vxWrl, p.vzWrl);
      && r.Ok? && |r.value| > 7 && r.value[..7] == "$GPVTG,"
      && ParseSentence(r.value).Some?
      && Split(ParseSentence(r.value).value, ',') ==
         ["GPVTG", heading, "T", heading, "M", FormatF(Mul(sog, KNOTS_PER_MPS), fmts.sog), "N",
          FormatF(Mul(sog, KMH_PER_MPS), fmts.sog), "K", "D"]
  {
    var body := VTGBody(fmts, num.float32(p.vehPsiLoc), num.sog(p.vxWrl, p.vzWrl));
    VTGBodyFields(fmts, num.float32(p.vehPsiLoc), num.sog(p.vxWrl, p.vzWrl));
    SentenceName("GPVTG", "$GPVTG,");
    Sentence(body, Split(body, ','), "GPVTG", "$GPVTG,");
  }

  /** GGA reads only the latitude, longitude and elevation of a position. */
  lemma GGAReadsOnly(fmts: Formats, num: Numbers, t: Clock, p: Position, q: Position)
    requires p.datLat == q.datLat && p.datLon == q.datLon && p.datEle == q.datEle
    ensures Output(GGA, fmts, num, t, p) == Output(GGA, fmts, num, t, q)
  {
  }

  /** VTG reads only the heading and the east and south velocities, and not the clock. */
  lemma VTGReadsOnly(fmts: Formats, num: Numbers, t: Clock, u: Clock, p: Position, q: Position)
    requires p.vehPsiLoc == q.vehPsiLoc && p.vxWrl == q.vxWrl && p.vzWrl == q.vzWrl
    ensures Output(VTG, fmts, num, t, p) == Output(VTG, fmts, num, u, q)
  {
  }
}
