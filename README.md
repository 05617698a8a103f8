# xplane-serial-gps-connector, modelled in Dafny

The connector makes X-Plane look like a GPS receiver on a serial port. It has
four parts, and this project models each of them.

- **Discovery.** It listens for the beacon that X-Plane multicasts. It keeps the
  masters that `FindXplane` returns in a registry, keyed by the address X-Plane
  listens on. The user picks an identifier from the registry, and its address
  is the one the app connects to.
- **Subscription.** It subscribes to the RPOS position stream ("RPOS", NUL, the
  rate, NUL). It reads the 64-byte little-endian position records that come back
  and puts them on a channel. It unsubscribes with a rate of 0 when the loop
  ends.
- **Encoding.** Each position goes through a list of outputters. The output is
  two NMEA 0183 sentences:
  - GGA, which carries the time, latitude, longitude and altitude;
  - VTG, which carries the heading and the speed over ground.

  Each sentence is framed as `$body*HH\r\n`, where `HH` is the XOR checksum of
  the body.
- **Output.** The serial sink writes every sentence to the serial device, in
  (position, outputter) order. It reports every failed output. A dummy sink only
  logs the same things. The application state says whether the app lacks an
  X-Plane or a configured port, is ready to run, or is running.

Modules, one per source file or concern:

| module | models |
|---|---|
| `Wrappers` | `Option` and `Result` |
| `Bytes` | the little-endian integers of `encoding/binary`, with their encoders |
| `Fmt` | the `%d`, `%0Nd` and `%.Pf` formatting the encoders use |
| `Nmea` | the precision profiles, the checksum, the sentence framing and `calculateLL` |
| `Gga`, `Vtg` | the two sentences |
| `Beacon` | the beacon record, `listenForBeacon` and `FindXplane` |
| `Xplanes` | the `XPlanes` registry, as a class over a map |
| `Rpos` | the position record, `getRequest` and the `RequestPositions` loop |
| `Outputters` | the `Outputter` implementations |
| `Port` | the serial library, as a device object that records opens, writes and closes |
| `Fanout` | the order in which positions meet outputters |
| `Serial` | the `Serial` sender |
| `Dummy` | the dummy sender |
| `App` | `AppState` and the `App` configuration |
| `Vectors` | worked examples from the unit tests |

How things the code cannot control are represented:
- A floating-point value is the exact decimal it denotes (`Fmt.Decimal`).
- `%.Pf` rounds that exact value half-to-even.
- The clock `time.Now()` is a parameter.
- The global `Formats` profile is a parameter.
- A socket is represented by the outcome of each call on it.
- The positions channel is a finite sequence.

## Model

| member | source | states |
|---|---|---|
| Nmea.CalculateChecksum | nmea/nmea.go:54-60 | the loop XORs every rune's full code into an int and keeps the low byte, and that is `Checksum(s)`, the XOR of the low bytes of the characters |
| Nmea.ChecksumStep | nmea/nmea.go:56-59 | one loop step: keeping only the low 8 bits commutes with XORing in the next rune |
| Nmea.Checksum | nmea/nmea.go:54-60 | the checksum as a specification: the XOR of the low bytes of every character; Nmea.CalculateChecksum proves the loop computes it |
| Nmea.Code | nmea/nmea.go:57 | `int(c)` of a rune, exact in 32 bits because every rune is below 0x110000; Nmea.CalculateChecksum XORs it in whole |
| Nmea.Low8 | nmea/nmea.go:59 | `byte(cs)`: the low 8 bits; Nmea.Low8Xor states that keeping them commutes with XOR |
| Nmea.Low8Xor | nmea/nmea.go:57-59 | the low byte of an XOR is the XOR of the low bytes, so truncating once at the end is truncating at every step |
| Nmea.Byte | nmea/nmea.go:57-59 | the byte a rune contributes to the checksum; Nmea.ChecksumStep relates it to the full code the loop XORs |
| Nmea.XorOf | nmea/nmea.go:56-58 | the XOR of a per-character byte over the first n characters; Nmea.XorOfConcat splits it at a join |
| Nmea.ByteXor | nmea/nmea.go:56-58 | the checksum of the first n characters: the invariant of the loop in Nmea.CalculateChecksum |
| Nmea.ChecksumEmpty | nmea/nmea.go:54-60 | the checksum of the empty text is 0 |
| Nmea.ChecksumConcat | nmea/nmea.go:54-60 | the checksum of a concatenation is the XOR of the two checksums |
| Nmea.XorOfConcat | nmea/nmea.go:56-58 | the XOR over a concatenation splits at the join, for any per-character byte |
| Nmea.Hex2 | nmea/gga.go:52 | `%02X` of a byte is always exactly two characters |
| Nmea.HexDigit | nmea/gga.go:52 | `%X` of a nibble is a digit or an upper-case letter A-F |
| Nmea.Hex2ReadsBack | nmea/vtg.go:35 | the two hexadecimal digits of the checksum read back as that byte |
| Nmea.HexDigitValue | nmea/vtg.go:35 | every nibble's digit reads back as the nibble |
| Nmea.HexValueExact | nmea/vtg.go:35 | a character that reads as a nibble is that nibble's digit, so upper case is the only form |
| Nmea.DecimalDigitExact | nmea/gga.go:52 | a decimal digit reads as the nibble whose digit it is |
| Nmea.LetterDigitExact | nmea/gga.go:52 | a letter A-F reads as the nibble whose digit it is |
| Nmea.NibblesSplit | nmea/gga.go:52 | a byte put together from two nibbles splits back into them |
| Nmea.ParseHex2Exact | nmea/gga.go:52 | two digits that read back as a byte are exactly `%02X` of it |
| Nmea.HexValue | nmea/gga.go:52 | the value of one upper-case hexadecimal digit; Nmea.HexDigitValue and Nmea.HexValueExact state that it inverts Nmea.HexDigit and nothing else |
| Nmea.ParseHex2 | nmea/gga.go:52 | two upper-case hexadecimal digits read back into a byte; Nmea.Hex2ReadsBack and Nmea.ParseHex2Exact state that it inverts `%02X` exactly |
| Nmea.Frame | nmea/gga.go:52 | `$`, the body, `*`, the two hexadecimal digits of its checksum, and CR LF; Nmea.FrameReadsBack and Nmea.ParseSentenceExact state its properties |
| Nmea.FrameReadsBack | nmea/gga.go:52 | a framed sentence `$body*HH\r\n` reads back as its body, with a checksum that matches |
| Nmea.ParseSentenceExact | nmea/vtg.go:35 | only framed sentences read back, so the framing is one-to-one |
| Nmea.ParseSentence | nmea/gga.go:52 | a framed sentence read back: `$`, the body, `*`, two digits that must equal the body's checksum, CR LF; Nmea.FrameReadsBack and Nmea.ParseSentenceExact state that it inverts Nmea.Frame |
| Nmea.DegreesMinutesSplit | nmea/nmea.go:70-72 | the degrees are floor(abs(v)), and the minutes are 60 times the rest, so 0 <= minutes < 60 |
| Nmea.AbsD | nmea/nmea.go:70 | `math.Abs` of an exact decimal: the same scale and the magnitude of the units |
| Nmea.Degrees | nmea/nmea.go:71 | `int(math.Floor(vA))`; Nmea.DegreesMinutesSplit states that it is floor(abs(v)), and Nmea.DegreesText how it prints |
| Nmea.Minutes | nmea/nmea.go:72 | `(vA - vDegrees) * 60`, exactly; Nmea.DegreesMinutesSplit states that it is 60 times the fractional part of abs(v), in [0, 60) |
| Nmea.Direction | nmea/nmea.go:73-76 | the letter is the second rune only for a negative argument, and it is given `math.Abs(v)`; Nmea.CalculateLLLetter states that the first rune is therefore always chosen |
| Nmea.DegMin | nmea/nmea.go:77 | the `fm` part of the Sprintf: the degrees zero-padded to the format's width, then the minutes with its width and precision; Nmea.DegreesText, Nmea.MinutesUnpadded and Nmea.DegMinNumeric state its properties |
| Nmea.CalculateLLLetter | nmea/nmea.go:73-77 | as written, the text ends in "," and the first direction rune, whatever the sign of v |
| Nmea.CalculateLL | nmea/nmea.go:67-79 | degrees, minutes, a comma and the direction rune, as written; Nmea.DegreesMinutesSplit, Nmea.CalculateLLLetter and Nmea.DegMinNumeric state its properties |
| Nmea.CalculateLat | nmea/nmea.go:82-86 | calculateLL with N and S and the latitude format of the profile |
| Nmea.CalculateLon | nmea/nmea.go:88-91 | calculateLL with E and W and the longitude format of the profile |
| Nmea.DegreesText | nmea/nmea.go:77 | the degrees are zero-padded to the format's width, keep every digit, and read back as floor(abs(v)) |
| Nmea.ItoaBelow | nmea/nmea.go:77 | a number that prints in k digits is below 10^k |
| Nmea.MinutesUnpadded | nmea/nmea.go:33-47 | as written, a minutes width of at most 2 never pads, so the minutes carry no leading zero |
| Nmea.DegMinNumeric | nmea/nmea.go:77 | the coordinate text holds only digits, '.' and '-', so the only comma is the one before the letter |
| Nmea.DegMinIntendedNumeric | nmea/nmea_test.go:37-48 | the corrected coordinate text holds only digits, '.' and '-' |
| Nmea.IntendedLetter | nmea/nmea_test.go:37-48 | corrected: the letter is the second rune exactly when v is negative |
| Nmea.IntendedMinutesWidth | nmea/nmea_test.go:37-48 | corrected: the minutes always have two integer digits, prec + 3 characters |
| Nmea.CalculateLLIntended | nmea/nmea.go:67-79 | the corrected calculateLL: the letter follows the sign of v; Nmea.IntendedLetter states it, and Vectors.LatSouthIntended and Vectors.LonWestIntended check it against the tests |
| Nmea.DegMinIntended | nmea/nmea.go:70-77 | the corrected degrees and minutes, with the minutes padded to two integer digits; Nmea.IntendedMinutesWidth and Nmea.DegMinIntendedNumeric state its properties |
| Nmea.CalculateLatIntended | nmea/nmea.go:82-86 | the corrected calculateLat: N or S by the sign of the latitude, in the profile's latitude format; Nmea.IntendedLetter states the letter and Vectors.LatSouthIntended checks the test's value |
| Nmea.CalculateLonIntended | nmea/nmea.go:88-91 | the corrected calculateLon: E or W by the sign of the longitude, in the profile's longitude format; Nmea.IntendedLetter states the letter and Vectors.LonWestIntended checks the test's value |
| Fmt.Itoa | nmea/gga.go:50 | `%d` of a natural number is one or more digits with no leading zero |
| Fmt.Atoi | nmea/gga.go:50 | the value of a digit string, the reading of `%d`; Fmt.AtoiItoa states that it inverts Fmt.Itoa |
| Fmt.AtoiItoa | nmea/gga.go:50 | `%d` text reads back as the number |
| Fmt.ItoaFits | nmea/nmea.go:77 | a number below 10^k prints in at most k digits |
| Fmt.ZeroPad | nmea/nmea.go:34-35 | the `0` flag with a width pads to exactly the width, and a longer text keeps its length |
| Fmt.Zeros | nmea/nmea.go:34-35 | the padding: exactly n characters, all '0'; Fmt.AtoiZeros states that it reads as 0 |
| Fmt.AtoiZeros | nmea/nmea.go:34-35 | a run of zeros reads as 0 |
| Fmt.ZeroPadDigits | nmea/nmea.go:34-35 | zero padding adds only leading zeros, and the number's value stays the same |
| Fmt.AtoiLeadingZeros | nmea/nmea.go:34-35 | leading zeros do not change a digit string's value |
| Fmt.RoundHalfEvenNearest | nmea/nmea.go:36-38 | `%.Pf` rounds to a nearest multiple of 10^-P, and to the even one on a tie |
| Fmt.RoundHalfEven | nmea/nmea.go:36-38 | n / d rounded to the nearest integer, an exact half to the even one; Fmt.RoundHalfEvenNearest states this and Fmt.RoundHalfEvenAtMost bounds it |
| Fmt.Rounded | nmea/nmea.go:36-38 | abs(x) rounded to P places, in units of 10^-P; Fmt.FormatFReadsBack and Fmt.RoundedAtMost state its properties |
| Fmt.IntPart | nmea/nmea.go:36-38 | the whole units of a magnitude in units of 10^-P; Fmt.PartsRecombine and Fmt.IntPartBelow state its properties |
| Fmt.FracPart | nmea/nmea.go:36-38 | the last P digits of a magnitude, below 10^P; Fmt.PartsRecombine states that it and the whole part make the magnitude |
| Fmt.WholeTextFacts | nmea/nmea.go:36-38 | the whole part prints as one or more digits that read back as it |
| Fmt.FracTextFacts | nmea/nmea.go:36-38 | the fraction prints as exactly P digits that read back as it |
| Fmt.RenderUnsigned | nmea/nmea.go:36-38 | the whole digits, then '.' and P fraction digits when P > 0; Fmt.RenderUnsignedReadsBack states that it reads back |
| Fmt.WholeText | nmea/nmea.go:36-38 | the whole digits of the text; Fmt.WholeTextFacts and Fmt.WholeTextShort state its properties |
| Fmt.FracText | nmea/nmea.go:36-38 | the fraction digits of the text, padded to P; Fmt.FracTextFacts states its properties |
| Fmt.Render | nmea/nmea.go:36-38 | an optional '-' and the unsigned text; Fmt.RenderReadsBack and Fmt.RenderNumeric state its properties |
| Fmt.FormatF | nmea/nmea.go:36-38 | `%.Pf` of an exact value: the sign of x, then abs(x) rounded half to even at P places; Fmt.FormatFReadsBack, Fmt.FormatFNumeric and Fmt.FormatFLength state its properties |
| Fmt.FormatFWidth | nmea/nmea.go:42-43 | `%0W.Pf`: `%.Pf` padded with zeros to W characters; Fmt.FormatFWidthNumeric and Fmt.FormatFWidthNoPad state its properties |
| Fmt.ParseUnsigned | nmea/nmea.go:36-38 | an unsigned fixed-point text read back: digits, and for P > 0 a '.' and exactly P digits; Fmt.ParseUnsignedLayout states how it reads |
| Fmt.ParseFixed | nmea/nmea.go:36-38 | a `%.Pf` text read back as a sign and a magnitude; Fmt.FormatFReadsBack states that it inverts Fmt.FormatF |
| Fmt.ParseFixedSign | nmea/nmea.go:36-38 | a leading '-' reads as the sign and the rest as the magnitude |
| Fmt.RenderWholeReadsBack | nmea/nmea.go:36-38 | with no fraction digits the text reads back as its magnitude |
| Fmt.RenderFracReadsBack | nmea/nmea.go:36-38 | with P > 0 fraction digits the text reads back as its magnitude |
| Fmt.DivisionError | nmea/nmea.go:36-38 | the two candidate quotients are n % d and d - n % d away |
| Fmt.PartsRecombine | nmea/nmea.go:36-38 | the whole part and the fraction digits make up the rounded magnitude |
| Fmt.FormatFReadsBack | nmea/nmea.go:36-38 | `%.Pf` text reads back as the sign of x and abs(x) rounded to P places |
| Fmt.RenderReadsBack | nmea/nmea.go:36-38 | a rendered sign and magnitude read back as themselves |
| Fmt.RenderUnsignedReadsBack | nmea/nmea.go:36-38 | an unsigned rendering reads back as its magnitude |
| Fmt.FormatFNumeric | nmea/nmea.go:36-38 | `%.Pf` produces only digits, '.' and '-' |
| Fmt.RenderNumeric | nmea/nmea.go:36-38 | a rendered sign and magnitude hold only digits, '.' and '-' |
| Fmt.FormatFWidthNumeric | nmea/nmea.go:42-43 | `%0W.Pf` produces only digits, '.' and '-' |
| Fmt.NumericConcat | nmea/nmea.go:77 | joining two texts of digits, '.' and '-' gives such a text |
| Fmt.DigitsNumeric | nmea/nmea.go:77 | a digit string is such a text |
| Fmt.FormatFLength | nmea/nmea.go:36-38 | the length of `%.Pf` is an optional sign, the whole digits, and '.' with P digits |
| Fmt.FormatFWidthNoPad | nmea/nmea.go:42-43 | a width no larger than the shortest `%.Pf` text never pads |
| Fmt.RoundedAtMost | nmea/nmea.go:72 | a value below c whole units rounds to at most c |
| Fmt.RoundHalfEvenAtMost | nmea/nmea.go:72 | rounding n / d cannot go past c when n < c * d |
| Fmt.IntPartBelow | nmea/nmea.go:72 | a magnitude below b whole units has a whole part below b |
| Fmt.WholeTextShort | nmea/nmea.go:42-43 | a magnitude below 10^k whole units prints at most k digits before the point |
| Fmt.ParseUnsignedLayout | nmea/nmea.go:36-38 | whole digits, '.', and P fraction digits read as whole * 10^P + fraction |
| Fmt.SplitConcat | nmea/gga.go:50 | splitting at a separator that joins two texts splits each of them |
| Fmt.SplitNoSep | nmea/gga.go:50 | a text without the separator is one field |
| Fmt.SplitHead | nmea/gga.go:50 | a text with several fields starts with its first field and the separator |
| Fmt.FieldAppend | nmea/gga.go:50 | appending ",f" appends the fields of f |
| Fmt.TwoFields | nmea/nmea.go:77 | "v,u" with no comma in v or u has exactly two fields |
| Fmt.Split | nmea/gga.go:50 | the fields between the commas, as `strings.Split` cuts them, never fewer than one; Fmt.SplitNoSep, Fmt.SplitConcat and Fmt.SplitHead state its properties |
| Fmt.Mul | nmea/vtg.go:24-26 | the exact product of two decimals, the speed conversions before rounding |
| Gga.TimeFieldLayout | nmea/gga.go:25-26 | the time field is ten characters "HHMMSS.mmm", and each part reads back as the hour, minute, second and whole milliseconds |
| Gga.TimeField | nmea/gga.go:25-26 | `t.Format("150405.000")` of the clock; Gga.TimeFieldLayout and Gga.TimeFieldNumeric state its properties |
| Gga.PaddedReadsBack | nmea/gga.go:26 | `%02d` of a number below 100 is two digits that read back as it |
| Gga.Two | nmea/gga.go:26 | the two-digit hour, minute and second of the time layout; Gga.PaddedReadsBack states that each reads back |
| Gga.TimeFieldNumeric | nmea/gga.go:26 | the time field has no comma |
| Gga.GGABodyFields | nmea/gga.go:50 | the GGA body splits into the name and 14 fields: time, lat, N/S, lon, E/W, quality, satellites, HDOP, altitude, M, separation, M, and two empty DGPS fields |
| Gga.NoComma | nmea/gga.go:50 | a numeric text holds no comma, so it stays one field |
| Gga.GGAHeadFields | nmea/gga.go:50 | the name, the time and the two coordinates with their letters are the first six fields |
| Gga.GGAFixFields | nmea/gga.go:50 | quality, satellites and HDOP append three fields |
| Gga.GGAHeightFields | nmea/gga.go:50 | the altitude and separation with their units, and the two empty DGPS fields, append six fields |
| Gga.GGAFieldsOf | nmea/gga.go:50 | the GGA format string with its ten arguments gives fifteen fields, in order |
| Gga.GGABody | nmea/gga.go:50 | the GGA body before framing; Gga.GGABodyFields states its fields in order |
| Gga.Metres | nmea/gga.go:32-44 | `Sprintf(Formats.alt+",M", x)` for the altitude (line 32) and the separation (line 44): the value in the profile's altitude precision, a comma and M; Gga.GGABodyFields and Gga.ToGPGGAFields state that these fill fields 9-12 |
| Gga.GenerateGGAIntended | nmea/gga_test.go:184 | the builder the tests call, with quality, satellites, HDOP and separation as arguments and the corrected coordinates; Gga.GenerateGGAIntendedFields states each field and Vectors.GGATest3 checks a test case |
| Gga.ToGPGGA | nmea/gga.go:9-53 | the framed GGA sentence of the fixed synthetic fix; Gga.ToGPGGAFields and Outputters.GGAOutput state its properties |
| Gga.ToGPGGAFields | nmea/gga.go:9-53 | ToGPGGA is the framed body, with the fixed quality 8, 12 satellites, HDOP 0.5 and separation 0, and (as written) always N and E |
| Gga.GenerateGGAIntendedFields | nmea/gga_test.go:8-190 | the generalised builder the tests call puts each argument in its slot, with letters that follow the signs |
| Gga.Rounded05 | nmea/gga.go:39-50 | HDOP 0.5 prints as "0.5" with `%0.1f` |
| Vtg.TruncMod | nmea/vtg.go:21 | a non-zero `math.Mod` result has the sign of the dividend, and its magnitude stays below the modulus |
| Vtg.NormalizeHeading | nmea/vtg.go:21 | `math.Mod(heading+360, 360)` on the exact decimal; Vtg.HeadingInRange, Vtg.HeadingWholeTurns, Vtg.HeadingFixesRange, Vtg.HeadingIdempotent and Vtg.HeadingBelowRange state its properties |
| Vtg.HeadingInRange | nmea/vtg.go:21 | a heading of at least -360 degrees comes out in [0, 360) |
| Vtg.HeadingWholeTurns | nmea/vtg.go:21 | for every heading, the result differs from it by whole turns |
| Vtg.HeadingFixesRange | nmea/vtg.go:21 | a heading already in [0, 360) is left as it is |
| Vtg.HeadingIdempotent | nmea/vtg.go:21 | for headings of at least -360 degrees, normalising twice is normalising once |
| Vtg.HeadingBelowRange | nmea/vtg.go:21 | worked cases: -721 gives -1, and -1 gives 359, so normalising is not idempotent there; -720 gives 0 |
| Vtg.HeadingBelowRangeSign | nmea/vtg.go:21 | below -360 degrees the result is never positive, and it is zero exactly when the heading is a whole number of turns |
| Vtg.VTGBodyFields | nmea/vtg.go:9-33 | the VTG body is the name, the heading with T, the same heading with M, knots with N, km/h with K, and D |
| Vtg.VTGHeadFields | nmea/vtg.go:33 | the name and the heading with T and with M are the first five fields |
| Vtg.VTGTailFields | nmea/vtg.go:33 | the two speeds with their units and the mode append five fields |
| Vtg.VTGFieldsOf | nmea/vtg.go:33 | the VTG format string lays its arguments out as ten fields |
| Vtg.VTGBody | nmea/vtg.go:21-33 | the VTG body before framing, with the normalised heading and both speeds; Vtg.VTGBodyFields states its fields in order |
| Vtg.Speed | nmea/vtg.go:24-26 | a speed in the profile's `sog` precision, a comma and its unit letter; Vtg.VTGBodyFields states that knots with N and km/h with K fill fields 5-8 |
| Vtg.ToGPVTG | nmea/vtg.go:9-36 | the framed VTG sentence; Vtg.VTGBodyFields and Vtg.ToGPVTGReadsBack state its properties |
| Vtg.ToGPVTGReadsBack | nmea/vtg.go:35 | the VTG sentence reads back as its body, so its checksum is valid |
| Bytes.U16Le16 | xplane/beacon.go:125 | reading the two little-endian bytes of a 16-bit value gives the value back |
| Bytes.Le16U16 | xplane/beacon.go:125 | any two bytes are the encoding of the value read from them |
| Bytes.U32Le32 | xplane/beacon.go:114 | the 32-bit little-endian round trip, value side |
| Bytes.Le32U32 | xplane/beacon.go:114 | the 32-bit little-endian round trip, byte side |
| Bytes.U64Le64 | xplane/position.go:39 | the 64-bit little-endian round trip, value side |
| Bytes.Le64U64 | xplane/position.go:39 | the 64-bit little-endian round trip, byte side |
| Bytes.I32LeI32 | xplane/beacon.go:23-24 | the two's-complement 32-bit round trip, value side |
| Bytes.LeI32I32 | xplane/beacon.go:23-24 | the two's-complement 32-bit round trip, byte side |
| Bytes.I32Sign | xplane/beacon.go:23-24 | an `int32` field is negative exactly when its top bit is set |
| Bytes.U16 | xplane/beacon.go:125 | `binary.LittleEndian.Uint16`, low byte first; Bytes.U16Le16 and Bytes.Le16U16 state that it inverts Bytes.Le16 |
| Bytes.U32 | xplane/beacon.go:112-117 | a `uint32` field as `binary.Read` takes it, low half first; Bytes.U32Le32 and Bytes.Le32U32 state the round trip |
| Bytes.U64 | xplane/position.go:39 | a 64-bit field, low word first; Bytes.U64Le64 and Bytes.Le64U64 state the round trip |
| Bytes.I32 | xplane/beacon.go:23-24 | an `int32` field: the 32 bits as two's complement; Bytes.I32LeI32, Bytes.LeI32I32 and Bytes.I32Sign state its properties |
| Bytes.Le16 | xplane/beacon.go:26 | the two bytes of a `uint16` field, low first; always two bytes |
| Bytes.Le32 | xplane/beacon.go:25 | the four bytes of a `uint32` field, low first; always four bytes |
| Bytes.Le64 | xplane/position.go:15-17 | the eight bytes of a float64 field's bits, low first; always eight bytes |
| Bytes.LeI32 | xplane/beacon.go:23-24 | the four two's-complement bytes of an `int32` field; always four bytes |
| Beacon.DecodeEncodeBasic | xplane/beacon.go:112-114 | decoding the 16 bytes of the fixed part gives it back |
| Beacon.BasicLayout | xplane/beacon.go:112-114 | the fixed part lays out host id, version, role and port at bytes 2, 6, 10 and 14 |
| Beacon.EncodeDecodeBasic | xplane/beacon.go:112-114 | every 16 bytes are the encoding of what is decoded from them |
| Beacon.DecodeBasic | xplane/beacon.go:112-117 | `binary.Read` of the packed little-endian struct from 16 bytes; Beacon.DecodeEncodeBasic and Beacon.EncodeDecodeBasic state that it inverts the encoding |
| Beacon.EncodeBasic | xplane/beacon.go:20-27 | the packed little-endian layout of the fixed part, always 16 bytes; Beacon.BasicLayout, Beacon.DecodeEncodeBasic and Beacon.EncodeDecodeBasic state that decoding inverts it |
| Beacon.TrimLeft | xplane/beacon.go:122 | trimming the left keeps a suffix; all it removes is NUL, and what is left does not start with NUL |
| Beacon.TrimRight | xplane/beacon.go:122 | trimming the right keeps a prefix; all it removes is NUL, and what is left does not end with NUL |
| Beacon.TrimNul | xplane/beacon.go:122 | `bytes.Trim(name, "\x00")`: the right trim of the left trim; Beacon.TrimNulSpec, Beacon.TrimNulKeeps, Beacon.TrimNulIdempotent and Beacon.TrimNulKeepsInterior state its properties |
| Beacon.LeadingNuls | xplane/beacon.go:122 | the number of NULs the trim cuts from the front; Beacon.TrimNulRun, Beacon.KeptFrom and Beacon.TrimNulKeepsInterior place the kept run with it |
| Beacon.TrimNulRun | xplane/beacon.go:122 | the trimmed name is the slice of the input that starts after the leading NULs |
| Beacon.TrimNulTail | xplane/beacon.go:122 | every byte after the kept run is NUL |
| Beacon.TrimNulSpec | xplane/beacon.go:122 | `bytes.Trim` keeps one contiguous run with no NUL at either end, and everything cut off is NUL |
| Beacon.TrimNulKeeps | xplane/beacon.go:122 | a name with no NUL at either end is left as it is |
| Beacon.TrimNulIdempotent | xplane/beacon.go:122 | trimming twice is trimming once |
| Beacon.TrimNulKeepsInterior | xplane/beacon.go:119-122 | everything from one non-NUL byte to a later one survives the trim, NULs inside included: the trim does not stop at the first NUL, whatever the comment says |
| Beacon.KeptFrom | xplane/beacon.go:122 | a non-NUL byte is not among the leading NULs that are cut |
| Beacon.KeptUpTo | xplane/beacon.go:122 | a non-NUL byte is not among the trailing NULs that are cut |
| Beacon.Text | xplane/beacon.go:130 | `string(b)` has one character per byte, with the same code |
| Beacon.TextBytes | xplane/beacon.go:130 | the bytes of a single-byte name convert back to the name |
| Beacon.ByteText | xplane/beacon.go:130 | a name made only of characters below 256, the names `string(b)` can produce; Beacon.TextBytes and Beacon.DecodeEncodeBeacon ask for it |
| Beacon.DecodeBeacon | xplane/beacon.go:111-133 | fewer than 16 bytes is a read error; 16 or 17 bytes panic on the name slice; otherwise the fixed part, the sender's address and the last two bytes as the RakNet port |
| Beacon.EncodeBeacon | xplane/beacon.go:111-133 | the payload is the fixed part, the name and two port bytes |
| Beacon.Sendable | xplane/beacon.go:119-130 | a name of single bytes with no NUL at either end, which the trim leaves unchanged; Beacon.DecodeEncodeBeacon states the round trip for such beacons |
| Beacon.DecodeEncodeBeacon | xplane/beacon.go:111-133 | decoding what X-Plane sends gives the beacon back, with the sender's address |
| Beacon.IsMasterByNames | xplane/beacon.go:63-108 | a master is exactly a beacon whose application is "X-Plane" and whose role is "Master" |
| Beacon.IsMaster | xplane/beacon.go:106-108 | host id 1 and role 1; Beacon.IsMasterByNames and Beacon.IsMasterByIdentifier state what it means |
| Beacon.ApplicationType | xplane/beacon.go:63-73 | host id 1 is "X-Plane", 2 is "PlaneMaker", anything else "Unknown"; used by Beacon.IsMasterByNames |
| Beacon.RoleType | xplane/beacon.go:75-88 | role 1 is "Master", 2 "Extern visual", 3 "IOS", anything else "Unknown"; used by Beacon.IsMasterByNames |
| Beacon.Name | xplane/beacon.go:90-93 | `String()`: "<application> <role> on <host>", the identifier that Xplanes.XPlanes.List and Xplanes.XPlanes.Find use; Beacon.IsMasterByIdentifier states how it tells masters apart |
| Beacon.IsMasterByIdentifier | xplane/beacon.go:90-108 | masters are exactly the beacons whose identifier starts "X-Plane Master on " |
| Beacon.Addr | xplane/beacon.go:40-45 | the sender's IP with the port X-Plane listens on, and no zone |
| Beacon.RaknetAddr | xplane/beacon.go:50-55 | the sender's IP with the RakNet port, and no zone |
| Beacon.AddrsShareHost | xplane/beacon.go:40-55 | the two addresses differ exactly when the two ports do |
| Beacon.Buffer | xplane/beacon.go:155-156 | the read buffer is always 512 bytes |
| Beacon.SetupMessage | xplane/beacon.go:139-150 | the message of each failing setup step (listen, read buffer, read deadline); Beacon.ListenForBeacon puts it in front of the cause |
| Beacon.TagCheck | xplane/beacon.go:162 | the comparison as written: the first 4 bytes of the buffer against the 5-byte tag; Beacon.TagCheckNeverFires states that it is never true |
| Beacon.Decoded | xplane/beacon.go:167-168 | the decoder's result as the listener's: a beacon is heard, a read error is an error with its message, a slice out of range is a panic; Beacon.ListenPayload and Beacon.ListenHearsBeacon use it |
| Beacon.TagCheckNeverFires | xplane/beacon.go:162 | a 4-byte slice never equals the 5-byte tag |
| Beacon.ListenForBeacon | xplane/beacon.go:137-169 | a setup or read failure is an error with its message; a datagram is tag-checked, then panics if shorter than 5 bytes, else is decoded from byte 5; Beacon.ListenNeverInvalid, Beacon.UntaggedAccepted, Beacon.ListenPayload and Beacon.ListenHearsBeacon state its properties |
| Beacon.ListenNeverInvalid | xplane/beacon.go:137-169 | as written, `listenForBeacon` never returns the invalid-beacon error |
| Beacon.UntaggedAccepted | xplane/beacon.go:161-168 | as written, 23 NUL bytes with no tag are taken for a beacon |
| Beacon.ListenPayload | xplane/beacon.go:167-168 | as written, a datagram of at least 5 bytes is decoded from its sixth byte on |
| Beacon.ListenHearsBeacon | xplane/beacon.go:137-169 | as written, a record X-Plane sends is heard as the beacon it describes |
| Beacon.ListenIntendedRejectsUntagged | xplane/beacon.go:161-165 | corrected: exactly the datagrams that do not start "BECN\0" are an invalid beacon |
| Beacon.ListenIntendedHearsBeacon | xplane/beacon.go:161-168 | corrected: a tagged record X-Plane sends is heard as its beacon |
| Beacon.ListenIntendedPayload | xplane/beacon.go:161-168 | corrected: a tagged datagram that fits the buffer is decoded from its sixth byte on |
| Beacon.ListenForBeaconIntended | xplane/beacon.go:161-168 | the corrected listen: a datagram without the "BECN\0" tag is an invalid beacon, otherwise the payload after the tag is decoded; Beacon.ListenIntendedRejectsUntagged and Beacon.ListenIntendedHearsBeacon state its properties |
| Beacon.Tagged | xplane/beacon.go:161-162 | a datagram that starts with "BECN\0", the test the comment describes; Beacon.ListenIntendedRejectsUntagged states that the corrected listener rejects exactly the others |
| Beacon.FindXplane | xplane/beacon.go:182-201 | the retry loop returns what the search function `FindFrom` says |
| Beacon.FindFrom | xplane/beacon.go:182-201 | the search from attempt i: retried attempts move on, the first other attempt decides, and past RETRIES nothing is found; Beacon.FindXplaneFound, Beacon.FindXplaneFails and Beacon.FindXplaneNotFound characterise it |
| Beacon.Retried | xplane/beacon.go:184-197 | the attempts the loop continues after: an invalid beacon, or a beacon that is not the master; Beacon.FindFromFirst, Beacon.FindXplaneNotFound and Beacon.FindListeningRetried state how the search uses it |
| Beacon.Decide | xplane/beacon.go:184-197 | the result of an attempt that ends the search: a beacon heard is returned, another error is passed on, a panic stays a panic; Beacon.FindXplaneFound, Beacon.FindXplaneFails and Beacon.FindXplaneMaster state which attempt decides |
| Beacon.FindFromFirst | xplane/beacon.go:182-201 | after attempts that were all retried, the first attempt not retried decides the result |
| Beacon.FindFromAllRetried | xplane/beacon.go:199-201 | when every remaining attempt is retried, the result is nothing and no error |
| Beacon.FindFromDecided | xplane/beacon.go:182-197 | unless every attempt is retried, some first attempt that is not retried decides the search |
| Beacon.FindXplaneFound | xplane/beacon.go:182-197 | a master is returned exactly when some attempt of the ten hears it and every earlier attempt was retried |
| Beacon.FindXplaneFails | xplane/beacon.go:188-190 | an error is returned exactly when it is the first attempt that is not retried |
| Beacon.FindXplaneNotFound | xplane/beacon.go:182-201 | nothing is returned exactly when all ten attempts are invalid beacons or non-masters |
| Beacon.FindXplaneBounded | xplane/beacon.go:182-199 | at most RETRIES attempts are made, so later outcomes do not matter |
| Beacon.FindXplaneMaster | xplane/beacon.go:192-197 | a found beacon is always a master |
| Beacon.FindListening | xplane/beacon.go:174-201 | `FindXplane` with `listenForBeacon` as written as its listener |
| Beacon.FindListeningRetried | xplane/beacon.go:182-197 | as written, the search retries exactly the beacons heard that are not the master, never an invalid datagram |
| Beacon.FindListeningUntagged | xplane/beacon.go:161-197 | as written, a master's record that arrives without the "BECN\0" tag, after retried attempts, is the master found |
| Beacon.FindListeningShort | xplane/beacon.go:161-197 | as written, a datagram shorter than the tag, after retried attempts, ends the search in a panic |
| Xplanes.AddedHas | xplane/xplanes.go:18-24 | after Add the address is known, and holds the first beacon heard there |
| Xplanes.Added | xplane/xplanes.go:18-24 | the map with the beacon added under its address unless that address is already there; Xplanes.AddedHas, Xplanes.AddedKeepsOthers, Xplanes.AddedSize, Xplanes.AddedIdempotent and Xplanes.AddedFirstWins state its properties |
| Xplanes.AddedKeepsOthers | xplane/xplanes.go:18-24 | Add touches no other address and forgets nothing |
| Xplanes.AddedSize | xplane/xplanes.go:18-24 | Add grows the registry by one exactly when the address is new |
| Xplanes.AddedIdempotent | xplane/xplanes.go:18-24 | adding the same beacon twice is adding it once |
| Xplanes.AddedFirstWins | xplane/xplanes.go:21-23 | a later beacon from the same address does not replace the first |
| Xplanes.AddedKeyed | xplane/xplanes.go:18-24 | every entry stays filed under its own beacon's address |
| Xplanes.Keyed | xplane/xplanes.go:18-24 | every entry is filed under its own beacon's address; Xplanes.AddedKeyed states that Add keeps it |
| Xplanes.Walked | xplane/xplanes.go:27-34 | what `range` over the map promises: a visit of every key once, in some order; Xplanes.XPlanes.List returns its identifiers in such an order |
| Xplanes.WalkStep | xplane/xplanes.go:28-32 | visiting one more unvisited key keeps the visit a walk |
| Xplanes.XPlanes.Valid | xplane/xplanes.go:18-24 | the registry is keyed by address; the constructor makes it and every method keeps it |
| Xplanes.XPlanes.constructor | xplane/xplanes.go:13 | a new registry is empty |
| Xplanes.XPlanes.Add | xplane/xplanes.go:18-24 | the registry becomes `Added(old, xpb)` and stays keyed by address |
| Xplanes.XPlanes.List | xplane/xplanes.go:27-34 | one identifier per entry, in the order of a walk that visits every address exactly once |
| Xplanes.XPlanes.Find | xplane/xplanes.go:37-45 | nothing exactly when no entry has the identifier; otherwise the address of an entry with that identifier |
| Rpos.ReadPosition | xplane/position.go:37-45 | fewer than 64 bytes is an error: "EOF" when there are none, "unexpected EOF" otherwise |
| Rpos.ReadEncodedPosition | xplane/position.go:37-45 | reading what X-Plane sends gives the position back, whatever follows it |
| Rpos.EncodeReadPosition | xplane/position.go:37-45 | every 64-byte record is some position: re-encoding what was read gives the bytes back |
| Rpos.EncodePosition | xplane/position.go:14-28 | the 64 bytes X-Plane sends: three 8-byte fields, then ten 4-byte fields, little-endian and unpadded; Rpos.ReadEncodedPosition and Rpos.EncodeReadPosition state that Rpos.ReadPosition inverts it |
| Rpos.F64At | xplane/position.go:15-17 | the bits of a float64 field at a byte offset, low byte first |
| Rpos.F32At | xplane/position.go:18-27 | the bits of a float32 field at a byte offset, low byte first |
| Rpos.ParseGetRequest | xplane/position.go:49-51 | the request reads back as the rate it asks for |
| Rpos.GetRequest | xplane/position.go:49-51 | "RPOS", NUL, the rate in decimal, NUL; Rpos.ParseGetRequest and Rpos.GetRequestInjective state its properties |
| Rpos.GetRequestInjective | xplane/position.go:49-51 | different rates make different requests, so only rate 0 is the unsubscribe |
| Rpos.Ascii | xplane/position.go:50 | `[]byte(s)` of single-byte text: one byte per character, with its code |
| Rpos.ParseRequest | xplane/position.go:49-51 | how a request reads: "RPOS", NUL, decimal digits, NUL; Rpos.ParseGetRequest states that it inverts Rpos.GetRequest |
| Rpos.HandleWellFormed | xplane/position.go:97-112 | a datagram with the header and a record gives an empty feedback, then that position |
| Rpos.HandleBadHeader | xplane/position.go:98-102 | without the "RPOS4" header nothing is read, and the feedback is "Invalid header" |
| Rpos.Handle | xplane/position.go:97-112 | one datagram: a header check, then a position read; Rpos.HandleWellFormed, Rpos.HandleBadHeader and Rpos.HandleShape state its properties |
| Rpos.ServeAt | xplane/position.go:78-114 | each tick of the loop: a cancel shuts down; a read error reports and shuts down; a timeout reports and goes on; a datagram is handled and the loop goes on |
| Rpos.Serve | xplane/position.go:78-114 | the select loop over the ticks; Rpos.ServeAt, Rpos.ServeEmits, Rpos.ServeRequests, Rpos.ServeCloses, Rpos.ServeClosesOnce and Rpos.ServeAnnounces state its properties |
| Rpos.Ends | xplane/position.go:80-95 | the ticks that end the loop: a cancelled context, and a read error that is not a timeout |
| Rpos.Exits | xplane/position.go:78-114 | the loop reaches a tick that ends it; Rpos.ServeRequests and Rpos.ServeCloses state that X-Plane is told to stop, and the socket closed, exactly then |
| Rpos.Live | xplane/position.go:78-114 | the ticks the loop gets to: up to and including the first that ends it; Rpos.ServeEmits uses it |
| Rpos.Received | xplane/position.go:97-112 | the positions one tick yields: the one a well-formed datagram holds, or none |
| Rpos.EmittedAll | xplane/position.go:104-112 | the positions the ticks yield, in order; Rpos.ServeEmits states that these are what the loop emits |
| Rpos.Emitted | xplane/position.go:112 | the positions a trace puts on the channel, in order; Rpos.EmittedConcat and Rpos.ServeEmits state its properties |
| Rpos.Requests | xplane/position.go:66-71 | the requests a trace writes to X-Plane, in order; Rpos.RequestsConcat, Rpos.ServeRequests and Rpos.SessionRequests state its properties |
| Rpos.ClosedLast | xplane/position.go:67 | the trace ends with the close |
| Rpos.ClosedOnce | xplane/position.go:64-68 | the socket is closed at most once, and only as the last action; Rpos.ServeClosesOnce states that the loop keeps it |
| Rpos.Announced | xplane/position.go:111-112 | every emitted position comes right after an empty feedback; Rpos.ServeAnnounces states that the loop keeps it |
| Rpos.AnnouncedConcat | xplane/position.go:111-112 | joining two announced traces gives an announced trace |
| Rpos.Shutdown | xplane/position.go:64-68 | the deferred function: unsubscribe with rate 0, then close; Rpos.ServeRequests, Rpos.ServeCloses and Rpos.ServeClosesOnce state where it happens |
| Rpos.Session | xplane/position.go:58-115 | the listen, the subscription write, the loop and the deferred unsubscribe; Rpos.SessionRequests and Rpos.RequestPositions state its properties |
| Rpos.HandleShape | xplane/position.go:97-112 | handling a datagram never writes to X-Plane or closes the socket, and each position it yields follows an empty feedback |
| Rpos.RequestPositions | xplane/position.go:58-115 | the method's trace is that of the session function: a panic when the listen fails; otherwise subscribe, then the loop, then the deferred unsubscribe and close |
| Rpos.ServeEmits | xplane/position.go:104-112 | the channel gets, in order, the position of every well-formed datagram among the ticks the loop gets to |
| Rpos.ServeRequests | xplane/position.go:64-114 | within the loop, X-Plane is told to stop once, exactly when the loop ends, and nothing else is written to it |
| Rpos.ServeCloses | xplane/position.go:64-68 | the socket is closed exactly when the loop ended |
| Rpos.ServeClosesOnce | xplane/position.go:64-68 | a close, when there is one, is the last action and the only close |
| Rpos.ServeAnnounces | xplane/position.go:111-112 | every position put on the channel comes right after an empty feedback |
| Rpos.SessionRequests | xplane/position.go:64-76 | a session first subscribes with its rate; it unsubscribes exactly when the first write failed or the loop ended |
| Rpos.EmittedConcat | xplane/position.go:112 | the positions of a joined trace are those of its parts |
| Rpos.RequestsConcat | xplane/position.go:66-71 | the requests of a joined trace are those of its parts |
| Outputters.GGAOutput | outputters/outputters.go:18-20 | GGA never fails; its sentence starts "$GPGGA,", reads back with a valid checksum, and puts latitude before longitude |
| Outputters.VTGOutput | outputters/outputters.go:26-28 | VTG never fails; its sentence starts "$GPVTG,", reads back with a valid checksum, with the record's heading and speed |
| Outputters.GGAReadsOnly | outputters/outputters.go:18-20 | GGA reads only the latitude, longitude and elevation of a position |
| Outputters.VTGReadsOnly | outputters/outputters.go:26-28 | VTG reads only the heading and the east and south velocities, and not the clock |
| Outputters.Sentence | outputters/outputters.go:18-28 | a body whose first field is the name frames into "$name,..." and reads back |
| Outputters.FramePrefix | nmea/gga.go:52 | a framed sentence starts with "$" and the start of its body |
| Outputters.SentenceName | outputters/outputters.go:18-28 | the two sentence prefixes are "$" and a five-letter name and a comma |
| Outputters.Output | outputters/outputters.go:18-28 | GGA renders ToGPGGA and VTG renders ToGPVTG from the record; Outputters.GGAOutput, Outputters.VTGOutput, Outputters.GGAReadsOnly and Outputters.VTGReadsOnly state its properties |
| Fanout.Row | serial/serial.go:68-77 | a position meets each of the m outputters: m results |
| Fanout.RowAt | serial/serial.go:68 | the j-th result of a row is the j-th outputter's |
| Fanout.Results | serial/serial.go:67-78 | the results of the double loop, position by position and each row in outputter order; Fanout.ResultsCount, Fanout.ResultsOrder and Fanout.ResultsOk state its properties, and Fanout.SendAll and Serial.Serial.SendPositions are proved against it |
| Fanout.Written | serial/serial.go:75 | what reaches the port: the successful messages, verbatim, in order; Fanout.WrittenConcat and Fanout.SkipsFailure state its properties |
| Fanout.Complaints | serial/serial.go:70-74 | one "Output failed" per failed output; Fanout.ComplaintsConcat, Fanout.NoComplaints and Fanout.SkipsFailure state its properties |
| Fanout.ResultsCount | serial/serial.go:67-78 | every position meets every outputter: n * m results |
| Fanout.ResultsOrder | serial/serial.go:67-68 | the result at index i * m + j is outputter j on position i |
| Fanout.NoComplaints | serial/serial.go:70-74 | results none of which failed send no complaint |
| Fanout.ResultsOk | serial/serial.go:67-78 | when no cell of the grid fails, no result fails |
| Fanout.SkipsFailure | serial/serial.go:70-75 | a failed output loses only its own message, and adds one "Output failed" |
| Fanout.WrittenConcat | serial/serial.go:75 | the writes of joined results are the writes of each part |
| Fanout.ComplaintsConcat | serial/serial.go:72 | the complaints of joined results are the complaints of each part |
| Fanout.SendOne | serial/serial.go:69-75 | a message is written to the device; a failure leaves the device alone and gives one "Output failed" |
| Fanout.SendRow | serial/serial.go:68-77 | the inner loop writes the row's messages in order and reports its failures |
| Fanout.SendAll | serial/serial.go:67-78 | the outer loop writes all messages in (position, outputter) order and reports every failure |
| Serial.BuiltInNeverComplain | serial/serial.go:70-74 | with only GGA and VTG outputters, "Output failed" is never sent |
| Serial.Cells | serial/serial.go:67-69 | the grid of a run: outputter j's `Output` on position i, at the clock reading of that call; Serial.BuiltInNeverComplain and Serial.Serial.SendPositions use it |
| Serial.BuiltIn | outputters/outputters.go:18-28 | the built-in GGA and VTG outputters; Serial.BuiltInNeverComplain states that they never cause "Output failed" |
| Serial.NewSerialUnconfigured | serial/serial.go:37-86 | a fresh Serial is not configured, because it has no port yet |
| Serial.Serial.Configured | serial/serial.go:84-86 | a port is named and the baud rate is not zero; Serial.NewSerialUnconfigured and App.App.State use it |
| Serial.Serial.constructor | serial/serial.go:37-46 | no port; 9600 baud, 8 data bits, no parity; the given outputters |
| Serial.Serial.SetPort | serial/serial.go:89-92 | the port changes, and nothing else does |
| Serial.Serial.SetBaud | serial/serial.go:95-98 | only the baud rate of the mode changes |
| Serial.Serial.SetDataBits | serial/serial.go:101-104 | only the data bits of the mode change |
| Serial.Serial.SetParity | serial/serial.go:107-110 | only the parity of the mode changes |
| Serial.Serial.SetStopBits | serial/serial.go:113-116 | only the stop bits of the mode change |
| Serial.Serial.GetMode | serial/serial.go:119 | a copy of the current mode |
| Serial.Serial.SendPositions | serial/serial.go:49-81 | when the open fails: its error and "Failed to open serial port", nothing written, not opened, no close. Otherwise: opened once with the port and mode, every successful sentence written in (position, outputter) order, an "Output failed" per failure, closed once, nil. Either way the device's open error stays the same |
| Port.Device.constructor | serial/serial.go:52-55 | a device that is not yet opened, written to or closed |
| Port.Device.Open | serial/serial.go:52-60 | opening fails with the device's error, or succeeds and records the port and mode |
| Port.Device.Write | serial/serial.go:75 | the message is appended to what the device received |
| Port.Device.Close | serial/serial.go:61-64 | the close count goes up by one |
| Dummy.RowLog | serial/dummy.go:17-26 | one log line per outputter for a position |
| Dummy.RowLogAt | serial/dummy.go:17-26 | the j-th line of a row logs outputter j's result |
| Dummy.ResultLine | serial/dummy.go:19-24 | a message is logged as output, an error as a warning with its error |
| Dummy.PositionLog | serial/dummy.go:16-25 | the lines for one position: the position, then one line per outputter; Dummy.LogPositionAt and Dummy.LogResultAt place them |
| Dummy.Log | serial/dummy.go:15-28 | the whole log, position by position; Dummy.LogCount, Dummy.LogPositionAt, Dummy.LogResultAt and Dummy.LogMatchesSerial state its properties, and Dummy.Dummy.SendPositions is proved against it |
| Dummy.LogCount | serial/dummy.go:15-28 | one line per position, plus one per (position, outputter) |
| Dummy.LogPositionAt | serial/dummy.go:16-17 | line i * (m + 1) is the i-th position |
| Dummy.LogResultAt | serial/dummy.go:18-25 | line i * (m + 1) + 1 + j logs outputter j's message, or its failure, for position i |
| Dummy.LogMatchesSerial | serial/dummy.go:15-28 | the dummy logs, at each (position, outputter), the same result that Serial writes or reports |
| Dummy.LogRow | serial/dummy.go:18-25 | the inner loop produces the row's log lines |
| Dummy.Dummy.constructor | serial/dummy.go:10-12 | the given outputters |
| Dummy.Dummy.Configured | serial/dummy.go:31 | always configured |
| Dummy.Dummy.SetPort | serial/dummy.go:34 | changes nothing: the method has no modifies clause |
| Dummy.Dummy.SetBaud | serial/dummy.go:37 | changes nothing: the method has no modifies clause |
| Dummy.Dummy.SendPositions | serial/dummy.go:15-28 | the log of every position and every output, in order, and nil |
| App.Classify | app.go:38-48 | Incomplete exactly without an X-Plane or a configured port; Running exactly with both and the flag set; Runable exactly with both and the flag clear |
| App.App.constructor | app.go:27-34 | no X-Plane address, the given sender and rate, not running |
| App.App.State | app.go:38-48 | the state is `Classify` of the current address, the sender's `Configured` and the running flag |
| App.App.SetXPlane | app.go:51-56 | only the X-Plane address changes |
| App.App.SetSerialPort | app.go:59-64 | the sender's port changes; its mode and outputters stay the same |
| App.App.SetBaudRate | app.go:67-72 | only the sender's baud rate changes |
| App.App.SetPositionFreq | app.go:75-80 | only the position rate changes |
| Vectors.PfecChecksum | nmea/nmea_test.go:13 | the checksum of "PFEC,GPint,RMC05" is 0x2D |
| Vectors.GpgllChecksum | nmea/nmea_test.go:15 | the checksum of "GPGLL,4807.038,N,01131.000,E,123519,A" is 0x25 |
| Vectors.VtgZerosChecksum | nmea/vtg_test.go:15 | the checksum of the resting VTG body is 0x26 |
| Vectors.VtgZeros | nmea/vtg_test.go:15 | the "Zeros" VTG sentence, character for character, checksum included |
| Vectors.VtgNegativeHeading | nmea/vtg_test.go:17 | the fields of the "Negative Heading" case: 314.877, 19.438452 knots, 36.000000 km/h |
| Vectors.LatSouthAsWritten | nmea/nmea_test.go:69 | as written, -8.123456 gives "087.4074,N" rather than the expected "0807.4074,S" |
| Vectors.LatSouthIntended | nmea/nmea_test.go:69 | the corrected conversion gives the expected "0807.4074,S" |
| Vectors.LonWestAsWritten | nmea/nmea_test.go:94 | as written, -109.123456 gives "1097.4074,E" |
| Vectors.LonWestIntended | nmea/nmea_test.go:94 | the corrected conversion gives the expected "10907.4074,W" |
| Vectors.GGATest3 | nmea/gga_test.go:61-73 | the "South and West" test case, field by field, with the generalised builder |
| Vectors.GGAAsWritten | nmea/gga.go:9-53 | ToGPGGA on the same position: quality 8, 12 satellites, HDOP 0.5, separation 0.00, and the letters N and E |

## Left out

- Floating point: each float is modelled by the exact decimal it denotes. The model does not capture:
  - the rounding of float64 products, such as `sog*1.943845249221964` and `(vA - vDegrees) * 60`;
  - float32-to-float64 widening.

  So the "Very Precise" test vectors are not reproduced.
- Signed zero, NaN and the infinities: a `Decimal` has none of them. Go's `math.Mod` gives -0 for a negative dividend that is a whole number of turns, so a heading of -720 prints "-0.000" where the model prints "0.000" (Vtg.HeadingBelowRange). The same applies to an elevation of -0.0, which Go prints as "-0.00,M". NaN and the infinities, which Go prints as "NaN" and "+Inf", have no counterpart: `Numbers` returns a decimal for every bit pattern.
- Outputters.Output: the IEEE-754 decoding of a position's bit patterns is a parameter (`Numbers`), and so is `SOG()`. The model does not compute the square root.
- Gga.TimeField: `time.Now().UTC()` is a parameter, the clock. The date is not modelled, because the field only shows the time of day.
- Nmea: the mutable global `Formats` is a parameter of every encoder. Tests that reassign it become calls with a profile.
- Beacon.ListenForBeacon: the socket calls (getConnection, SetReadBuffer, SetReadDeadline, ReadFromUDP) are represented by their outcome, a `ListenEvent`. The Windows and non-Windows `getConnection` and multicast group membership are not part of this model.
- Beacon.FindXplane: `net.ResolveUDPAddr` of a constant address cannot fail, so it is left out. The wait duration only feeds the deadline, so it is left out too.
- `BeaconVersion` and `Details` are not modelled. They build human-readable text for logging and do not affect the behaviour.
- Xplanes: the Go map is keyed by `UDPAddr.String()`. The model uses the address itself as the key, which assumes every address arrives in one canonical form. `String()` is not one-to-one: a 4-byte IPv4 address and its 16-byte IPv4-mapped form print the same, so Go files them under one key where the model keeps two entries. That collision is not captured.
- Xplanes.XPlanes.List: Go's map iteration order is random, and the model does not fix it. It is a walk that visits every key once.
- Xplanes.XPlanes.Find: when several entries share an identifier, Go returns whichever the random walk meets first. The model promises only some entry with that identifier.
- Rpos.RequestPositions: the loop runs over a finite sequence of ticks. A run whose ticks end without a cancel or read error is still running, with no unsubscribe yet. The model does not capture:
  - `ctx.Done()` concurrency;
  - the one-second deadline;
  - blocking on the channels.

  The return value of the deferred `WriteToUDP` is ignored, as it is in the source.
- Serial.Serial.SendPositions: the positions channel is a finite sequence. The return value of `ser.Write` is ignored, as in the source. A short write is not modelled.
- Serial: `FindPorts` (listing the system's serial ports) is left out, because it is a foreign call.
- Logging through `slog` is left out. Dummy's log is returned as a sequence of `LogLine` values, the only observable effect.
- App: `App.Serial` is a `serial.Sender` interface. The model holds the `Serial` class there.
- App: Dummy is not a `Sender`, because its `SendPositions` takes no feedback channel, so it could not be one either.
- App: the mutex in each method is left out, and so is the `Logger` field.
- App.Run: this is goroutine wiring and left out, together with the "XXX" feedback on a failed send. Its two halves are modelled as Rpos.RequestPositions and Serial.Serial.SendPositions.
- `uint` rates and `int` baud rates are unbounded integers. No 64-bit wrap-around is modelled. Likewise Go's `int(vDegrees)` (nmea/nmea.go:77) is implementation-defined for degrees at or above 2^63, while the model keeps the exact floor.
- The unit tests of GGA call `generateGGA`, which the source does not define. It is modelled as Gga.GenerateGGAIntended, with the arguments in the slots the test's expected strings show.
- Vectors: three of the five checksum test vectors are left out: GPRMC, GPGSA and GPGSV. Each is a long literal whose evaluation is costly. The general checksum lemmas cover them.
- Vectors: the checksums of the GGA vector and of the "Negative Heading" VTG vector ("*27") are not evaluated.
- Vectors: of the GGA table only "Test 3-South and West" is stated; tests 0-2 and 4-11 (nmea/gga_test.go:22-60 and nmea/gga_test.go:74-179) are not. Of the VTG table only "Zeros" and "Negative Heading" are stated; "Normal", ">1 Heading Rotation", "2 Heading Rotations" and "Very Precise" (nmea/vtg_test.go:16-20) and every "-Enhanced" case (nmea/vtg_test.go:22-27) are not. Each would need literal evaluation of the same cost as the stated cases. The general lemmas cover what they test: Gga.GenerateGGAIntendedFields and Vtg.VTGBodyFields the layout, and Vtg.HeadingInRange and Vtg.HeadingWholeTurns the rotation cases.
- Vtg.HeadingIdempotent: stated only for headings of at least -360 degrees. Below that, a heading that is not a whole number of turns stays negative under Go's `math.Mod`, and normalising is not idempotent (Vtg.HeadingBelowRange, Vtg.HeadingBelowRangeSign).

## Findings

| source | as written | input that shows it | evidently intended | confidence | as-written member | corrected member |
|---|---|---|---|---|---|---|
| nmea/nmea.go:73-76 | the hemisphere test `vA < 0` is made on the absolute value, so the letter is always N or E | -8.123456 gives "...,N" | S or W for a negative coordinate, as nmea/nmea_test.go:40 expects | high (not executed) | Nmea.CalculateLLLetter | Nmea.IntendedLetter |
| nmea/nmea.go:34-35 | the minutes are printed with "%0.4f", which has no width, so they get no leading zero | -8.123456: 7.4074 minutes printed as "087.4074" | two integer digits, "0807.4074", as nmea/nmea_test.go:38 expects | high (not executed) | Nmea.MinutesUnpadded | Nmea.IntendedMinutesWidth |
| xplane/beacon.go:162-165 | a 4-byte slice is compared with the 5-byte tag, so the check never fires; it would also reject tagged datagrams and accept untagged ones | 23 NUL bytes are decoded as a beacon | reject exactly the datagrams that do not start with "BECN\0" | high (not executed) | Beacon.UntaggedAccepted | Beacon.ListenIntendedRejectsUntagged |

The sentences the connector actually sends are modelled as the code is written:
Gga.ToGPGGA renders coordinates with Nmea.CalculateLat and Nmea.CalculateLon.
Beacon.FindXplane is stated over any listener, and Beacon.FindListening is that
search with Beacon.ListenForBeacon as written: there an untagged record of a
master is connected to (Beacon.FindListeningUntagged), and a datagram shorter
than the tag panics (Beacon.FindListeningShort). The corrected
definitions are these:
- Nmea.CalculateLLIntended, which uses Nmea.DegMinIntended;
- Beacon.ListenForBeaconIntended.

The generalised GGA builder that the tests call (Gga.GenerateGGAIntended) and
the test vectors in `Vectors` use the corrected conversion.
