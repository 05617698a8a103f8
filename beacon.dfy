/**
 * The X-Plane discovery beacon: the little-endian BECN record that X-Plane
 * multicasts, its classification (application, role, master), the reading of
 * one datagram by `listenForBeacon`, and the bounded search of `FindXplane`.
 *
 * The socket work (joining the multicast group, buffers, deadlines, the read
 * itself) is represented by its outcome, a `ListenEvent`.
 */
module Beacon {
  import opened Wrappers
  import opened Bytes

  /** `MCAST_PORT` and `RETRIES`. */
  const MCAST_PORT: nat := 49707
  const RETRIES: nat := 10

  /** A `net.UDPAddr`: the address bytes, the port and the IPv6 zone. */
  datatype UdpAddr = UdpAddr(ip: seq<byte>, port: int, zone: string)

  /** `XPlaneBasicBeacon`, the 16-byte fixed part of the record. */
  datatype BasicBeacon = BasicBeacon(
    beaconMajorVersion: byte,
    beaconMinorVersion: byte,
    applicationHostId: i32,
    versionNumber: i32,
    role: u32,
    port: u16)

  /** `XPlaneBeacon`: the fixed part, the sender's address, the host name and the RakNet port. */
  datatype XPlaneBeacon = XPlaneBeacon(basic: BasicBeacon, ip: UdpAddr, computerName: string, raknetPort: u16)

  /** `binary.Size(XPlaneBasicBeacon{})`: 1 + 1 + 4 + 4 + 4 + 2 bytes, no padding. */
  const BASIC_SIZE: nat := 16

  // ---------------------------------------------------------------- the record

  /** `binary.Read(buf, binary.LittleEndian, &sb)` on exactly sixteen bytes. */
  function DecodeBasic(b: seq<byte>): BasicBeacon
    requires |b| == BASIC_SIZE
  {
    BasicBeacon(b[0], b[1], I32(b[2..6]), I32(b[6..10]), U32(b[10..14]), U16(b[14..16]))
  }

  /** The sixteen bytes X-Plane writes for the fixed part. */
  function EncodeBasic(sb: BasicBeacon): (b: seq<byte>)
    ensures |b| == BASIC_SIZE
  {
    [sb.beaconMajorVersion, sb.beaconMinorVersion] + LeI32(sb.applicationHostId) + LeI32(sb.versionNumber)
    + Le32(sb.role) + Le16(sb.port)
  }

  /** Where each field of the fixed part lands in its sixteen bytes. */
  lemma BasicLayout(sb: BasicBeacon)
    ensures var b := EncodeBasic(sb);
      && b[2..6] == LeI32(sb.applicationHostId) && b[6..10] == LeI32(sb.versionNumber)
      && b[10..14] == Le32(sb.role) && b[14..16] == Le16(sb.port)
  {
    var h := [sb.beaconMajorVersion, sb.beaconMinorVersion];
    var a, v := LeI32(sb.applicationHostId), LeI32(sb.versionNumber);
    var r, q := Le32(sb.role), Le16(sb.port);
    var b6 := h + a;
    var b10 := b6 + v;
    var b14 := b10 + r;
    var b := EncodeBasic(sb);
    assert |b6| == 6 && |b10| == 10 && |b14| == 14;
    assert b == b14 + q;
    assert b[..14] == b14 && b[14..16] == q;
    assert b14[..10] == b10 && b14[10..14] == r;
    assert b10[..6] == b6 && b10[6..10] == v;
    assert b6[2..6] == a;
    assert b[10..14] == b14[10..14];
    assert b[6..10] == b10[6..10];
    assert b[2..6] == b6[2..6];
  }

  lemma DecodeEncodeBasic(sb: BasicBeacon)
    ensures DecodeBasic(EncodeBasic(sb)) == sb
  {
    BasicLayout(sb);
    I32LeI32(sb.applicationHostId);
    I32LeI32(sb.versionNumber);
    U32Le32(sb.role);
    U16Le16(sb.port);
  }

  lemma EncodeDecodeBasic(b: seq<byte>)
    requires |b| == BASIC_SIZE
    ensures EncodeBasic(DecodeBasic(b)) == b
  {
    LeI32I32(b[2..6]);
    LeI32I32(b[6..10]);
    Le32U32(b[10..14]);
    Le16U16(b[14..16]);
    assert b == b[..2] + b[2..6] + b[6..10] + b[10..14] + b[14..16];
  }

  // ---------------------------------------------------------------- the host name

  /** `bytes.TrimLeft(s, "\x00")` */
  function TrimLeft(s: seq<byte>): (r: seq<byte>)
    ensures |r| <= |s| && r == s[|s| - |r|..]
    ensures forall k | 0 <= k < |s| - |r| :: s[k] == 0
    ensures |r| > 0 ==> r[0] != 0
  {
    if |s| > 0 && s[0] == 0 then
      var t := s[1..];
      var r := TrimLeft(t);
      assert t[|t| - |r|..] == s[|s| - |r|..];
      assert forall k | 0 <= k < |s| - |r| :: s[k] == 0 by {
        forall k | 1 <= k < |s| - |r| ensures s[k] == 0 {
          assert s[k] == t[k - 1];
        }
      }
      r
    else s
  }

  /** `bytes.TrimRight(s, "\x00")` */
  function TrimRight(s: seq<byte>): (r: seq<byte>)
    ensures |r| <= |s| && r == s[..|r|]
    ensures forall k | |r| <= k < |s| :: s[k] == 0
    ensures |r| > 0 ==> r[|r| - 1] != 0
  {
    if |s| > 0 && s[|s| - 1] == 0 then TrimRight(s[..|s| - 1]) else s
  }

  /** `bytes.Trim(s, "\x00")`: NULs are removed at both ends, and only there. */
  function TrimNul(s: seq<byte>): seq<byte>
  {
    TrimRight(TrimLeft(s))
  }

  /** How many leading NULs `TrimNul` removes. */
  function LeadingNuls(s: seq<byte>): nat
  {
    |s| - |TrimLeft(s)|
  }

  /**
   * What is kept is one contiguous run of the input, with no NUL at either
   * end, and everything cut off on either side is NUL.
   */
  lemma TrimNulSpec(s: seq<byte>)
    ensures var i, r := LeadingNuls(s), TrimNul(s);
      && i + |r| <= |s| && r == s[i..i + |r|]
      && (forall k | 0 <= k < i :: s[k] == 0)
      && (forall k | i + |r| <= k < |s| :: s[k] == 0)
      && (|r| > 0 ==> r[0] != 0 && r[|r| - 1] != 0)
  {
    var r := TrimNul(s);
    TrimNulRun(s);
    TrimNulTail(s);
    if |r| > 0 {
      assert r[0] == TrimLeft(s)[0];
    }
  }

  lemma TrimNulRun(s: seq<byte>)
    ensures LeadingNuls(s) + |TrimNul(s)| <= |s|
    ensures TrimNul(s) == s[LeadingNuls(s)..LeadingNuls(s) + |TrimNul(s)|]
  {
    var l, r, i := TrimLeft(s), TrimNul(s), LeadingNuls(s);
    assert l == s[i..];
    assert r == l[..|r|];
  }

  lemma TrimNulTail(s: seq<byte>)
    ensures forall k | LeadingNuls(s) + |TrimNul(s)| <= k < |s| :: s[k] == 0
  {
    var l, r, i := TrimLeft(s), TrimNul(s), LeadingNuls(s);
    forall k | i + |r| <= k < |s|
      ensures s[k] == 0
    {
      assert s[k] == l[k - i];
    }
  }

  /** A name without a NUL at either end is left as it is. */
  lemma TrimNulKeeps(s: seq<byte>)
    requires |s| > 0 ==> s[0] != 0 && s[|s| - 1] != 0
    ensures TrimNul(s) == s
  {
  }

  /** Trimming twice is trimming once. */
  lemma TrimNulIdempotent(s: seq<byte>)
    ensures TrimNul(TrimNul(s)) == TrimNul(s)
  {
    TrimNulSpec(s);
    TrimNulKeeps(TrimNul(s));
  }

  /**
   * Only the ends are trimmed: everything from one non-NUL byte to a later
   * one survives, NULs inside included, so a name is not cut at its first NUL.
   */
  lemma TrimNulKeepsInterior(s: seq<byte>, i: nat, j: nat)
    requires i <= j < |s| && s[i] != 0 && s[j] != 0
    ensures var l := LeadingNuls(s);
      && l <= i && j < l + |TrimNul(s)|
      && TrimNul(s)[i - l..j + 1 - l] == s[i..j + 1]
  {
    var l, r := LeadingNuls(s), TrimNul(s);
    TrimNulRun(s);
    KeptFrom(s, i);
    KeptUpTo(s, j);
    SliceOfSlice(s, l, |r|, i, j + 1);
  }

  lemma SliceOfSlice(s: seq<byte>, l: nat, n: nat, i: nat, j: nat)
    requires l <= i <= j <= l + n <= |s|
    ensures s[l..l + n][i - l..j - l] == s[i..j]
  {
    var t := s[l..l + n][i - l..j - l];
    assert |t| == j - i;
    forall k | 0 <= k < j - i
      ensures t[k] == s[i + k]
    {
      assert t[k] == s[l..l + n][i - l + k];
    }
  }

  /** A non-NUL byte is not among the leading NULs. */
  lemma KeptFrom(s: seq<byte>, i: nat)
    requires i < |s| && s[i] != 0
    ensures LeadingNuls(s) <= i
  {
    assert s[i] != 0;  // the term that triggers TrimLeft's all-NUL prefix
  }

  /** A non-NUL byte is not among the trailing NULs. */
  lemma KeptUpTo(s: seq<byte>, j: nat)
    requires j < |s| && s[j] != 0
    ensures j < LeadingNuls(s) + |TrimNul(s)|
  {
    TrimNulTail(s);
  }

  /** `string(b)`: each byte becomes one character of the same code. */
  function Text(b: seq<byte>): (s: string)
    ensures |s| == |b|
    ensures forall k | 0 <= k < |b| :: s[k] as int == b[k]
  {
    seq(|b|, k requires 0 <= k < |b| => b[k] as char)
  }

  /** A host name every character of which is a single byte. */
  predicate ByteText(s: string)
  {
    forall k | 0 <= k < |s| :: s[k] as int < 0x100
  }

  /** `[]byte(s)` of a host name made of single bytes. */
  function TextBytes(s: string): (b: seq<byte>)
    requires ByteText(s)
    ensures |b| == |s|
    ensures Text(b) == s
  {
    seq(|s|, k requires 0 <= k < |s| => s[k] as int)
  }

  // ---------------------------------------------------------------- decoding

  /** Why a beacon payload did not decode. */
  datatype DecodeError =
    | ReadError(msg: string)   // the `error` `decodeBeacon` returns
    | SliceOutOfRange          // the run-time panic of `bs[16:len(bs)-2]`

  /**
   * `decodeBeacon`: the fixed part needs sixteen bytes (`binary.Read` reports
   * EOF when there are none and an unexpected EOF when there are some);
   * the name is everything between the fixed part and the last two bytes,
   * trimmed of NULs, and the last two bytes are the RakNet port. A payload of
   * sixteen or seventeen bytes makes the name slice run backwards, which
   * panics.
   */
  function DecodeBeacon(bs: seq<byte>, addr: UdpAddr): (r: Result<XPlaneBeacon, DecodeError>)
    ensures |bs| < BASIC_SIZE <==> r.Err? && r.error.ReadError?
    ensures r.Err? && r.error.SliceOutOfRange? <==> BASIC_SIZE <= |bs| < BASIC_SIZE + 2
    ensures r.Ok? ==> r.value.basic == DecodeBasic(bs[..BASIC_SIZE]) && r.value.ip == addr
                      && r.value.raknetPort == U16(bs[|bs| - 2..])
  {
    if |bs| < BASIC_SIZE then
      Err(ReadError("could not read beacon: " + if |bs| == 0 then "EOF" else "unexpected EOF"))
    else if |bs| < BASIC_SIZE + 2 then
      Err(SliceOutOfRange)
    else
      Ok(XPlaneBeacon(DecodeBasic(bs[..BASIC_SIZE]), addr, Text(TrimNul(bs[BASIC_SIZE..|bs| - 2])),
                      U16(bs[|bs| - 2..])))
  }

  /** A beacon whose name can travel in the record unchanged. */
  predicate Sendable(b: XPlaneBeacon)
  {
    && ByteText(b.computerName)
    && (|b.computerName| > 0 ==> b.computerName[0] != '\0' && b.computerName[|b.computerName| - 1] != '\0')
  }

  /** The payload after the tag: the fixed part, the name bytes and the RakNet port. */
  function EncodeBeacon(b: XPlaneBeacon): (bs: seq<byte>)
    requires ByteText(b.computerName)
    ensures |bs| == BASIC_SIZE + |b.computerName| + 2
  {
    EncodeBasic(b.basic) + TextBytes(b.computerName) + Le16(b.raknetPort)
  }

  /** Decoding what X-Plane encodes gives the beacon back, with the sender's address. */
  lemma DecodeEncodeBeacon(b: XPlaneBeacon)
    requires Sendable(b)
    ensures DecodeBeacon(EncodeBeacon(b), b.ip) == Ok(b)
  {
    var bs := EncodeBeacon(b);
    var name := TextBytes(b.computerName);
    assert bs[..BASIC_SIZE] == EncodeBasic(b.basic);
    assert bs[BASIC_SIZE..|bs| - 2] == name;
    assert bs[|bs| - 2..] == Le16(b.raknetPort);
    DecodeEncodeBasic(b.basic);
    U16Le16(b.raknetPort);
    assert |name| > 0 ==> name[0] != 0 && name[|name| - 1] != 0 by {
      if |name| > 0 {
        assert b.computerName[0] as int == name[0];
        assert b.computerName[|name| - 1] as int == name[|name| - 1];
      }
    }
    TrimNulKeeps(name);
  }

  // ---------------------------------------------------------------- classification

  /** `ApplicationType` */
  function ApplicationType(b: XPlaneBeacon): string
  {
    match b.basic.applicationHostId
    case 1 => "X-Plane"
    case 2 => "PlaneMaker"
    case _ => "Unknown"
  }

  /** `RoleType` */
  function RoleType(b: XPlaneBeacon): string
  {
    match b.basic.role
    case 1 => "Master"
    case 2 => "Extern visual"
    case 3 => "IOS"
    case _ => "Unknown"
  }

  /** `String`: the human-readable identifier, "<application> <role> on <host>". */
  function Name(b: XPlaneBeacon): string
  {
    ApplicationType(b) + " " + RoleType(b) + " on " + b.computerName
  }

  /** `IsMaster`: host id 1 (X-Plane) and role 1 (master). */
  predicate IsMaster(b: XPlaneBeacon)
  {
    b.basic.applicationHostId == 1 && b.basic.role == 1
  }

  /** A master is exactly a beacon that names itself "X-Plane" and "Master". */
  lemma IsMasterByNames(b: XPlaneBeacon)
    ensures IsMaster(b) <==> ApplicationType(b) == "X-Plane" && RoleType(b) == "Master"
  {
  }

  const MASTER_PREFIX: string := "X-Plane Master on "

  /** Masters are recognisable from their identifier alone. */
  lemma IsMasterByIdentifier(b: XPlaneBeacon)
    ensures IsMaster(b) <==> |Name(b)| >= |MASTER_PREFIX| && Name(b)[..|MASTER_PREFIX|] == MASTER_PREFIX
  {
    var s := Name(b);
    var app := ApplicationType(b);
    var role := RoleType(b);
    assert s == app + " " + role + " on " + b.computerName;
    if IsMaster(b) {
      assert s == MASTER_PREFIX + b.computerName;
    } else if app != "X-Plane" {
      assert s[0] == app[0];
    } else {
      assert s[8] == role[0];
      if role == "Unknown" {
        assert s[8] == 'U';
      }
    }
  }

  /** `Addr`: the sender's IP with the port X-Plane listens on (the zone is dropped). */
  function Addr(b: XPlaneBeacon): (a: UdpAddr)
    ensures a.ip == b.ip.ip && a.port == b.basic.port && a.zone == ""
  {
    UdpAddr(b.ip.ip, b.basic.port as int, "")
  }

  /** `RaknetAddr`: the sender's IP with the RakNet client's port. */
  function RaknetAddr(b: XPlaneBeacon): (a: UdpAddr)
    ensures a.ip == b.ip.ip && a.port == b.raknetPort && a.zone == ""
  {
    UdpAddr(b.ip.ip, b.raknetPort as int, "")
  }

  /** The two addresses of a beacon differ exactly when its two ports do. */
  lemma AddrsShareHost(b: XPlaneBeacon)
    ensures Addr(b) == RaknetAddr(b) <==> b.basic.port == b.raknetPort
  {
  }

  // ---------------------------------------------------------------- listening

  /** The socket steps of `listenForBeacon` that can fail before the read. */
  datatype SetupStep = Listen | SetReadBuffer | SetReadDeadline

  /** What the socket did on one `listenForBeacon`. */
  datatype ListenEvent =
    | SetupFailed(step: SetupStep, detail: string)
    | ReadFailed(detail: string)                       // includes the deadline passing
    | Received(datagram: seq<byte>, from: UdpAddr)

  /** The errors `listenForBeacon` returns. */
  datatype ListenError = InvalidBeacon | Error(msg: string)

  /** The result of one `listenForBeacon`, counting a panic as a result. */
  datatype ListenOutcome = Heard(beacon: XPlaneBeacon) | Failed(err: ListenError) | Panicked

  /** The read buffer: `make([]byte, 512)`. */
  const BUFFER_SIZE: nat := 512

  /** The tag X-Plane puts in front of the record: "BECN" and a NUL. */
  const BECN: seq<byte> := [0x42, 0x45, 0x43, 0x4E, 0]

  /** The text each failed setup step returns, before the underlying error. */
  function SetupMessage(step: SetupStep): string
  {
    match step
    case Listen => "could not listen to UDP address: "
    case SetReadBuffer => "could not set read buffer: "
    case SetReadDeadline => "could not set read deadline: "
  }

  /** `buf` after `ReadFromUDP`: the datagram cut to the buffer, then the zeroes of `make`. */
  function Buffer(datagram: seq<byte>): (buf: seq<byte>)
    ensures |buf| == BUFFER_SIZE
  {
    var n := if |datagram| < BUFFER_SIZE then |datagram| else BUFFER_SIZE;
    datagram[..n] + seq(BUFFER_SIZE - n, _ => 0)
  }

  /** `bytes.Equal(buf[:4], []byte("BECN\x00"))` */
  predicate TagCheck(buf: seq<byte>)
    requires |buf| >= 4
  {
    buf[..4] == BECN
  }

  /** Four bytes never equal five: the tag check of `listenForBeacon` never fires. */
  lemma TagCheckNeverFires(buf: seq<byte>)
    requires |buf| >= 4
    ensures !TagCheck(buf)
  {
    assert |buf[..4]| != |BECN|;
  }

  /** What `listenForBeacon` returns for a decoding result; a slice out of range is a panic. */
  function Decoded(r: Result<XPlaneBeacon, DecodeError>): ListenOutcome
  {
    match r
    case Ok(b) => Heard(b)
    case Err(ReadError(m)) => Failed(Error(m))
    case Err(SliceOutOfRange) => Panicked
  }

  /**
   * `listenForBeacon` as written: the tag check is evaluated, then the payload
   * `buf[5:n]` is decoded; a datagram shorter than five bytes makes that slice
   * run backwards, which panics.
   */
  function ListenForBeacon(e: ListenEvent): ListenOutcome
  {
    match e
    case SetupFailed(step, detail) => Failed(Error(SetupMessage(step) + detail))
    case ReadFailed(detail) => Failed(Error("could not read from UDP address: " + detail))
    case Received(datagram, from) =>
      var buf := Buffer(datagram);
      var n := if |datagram| < BUFFER_SIZE then |datagram| else BUFFER_SIZE;
      if TagCheck(buf) then Failed(InvalidBeacon)
      else if n < |BECN| then Panicked
      else Decoded(DecodeBeacon(buf[|BECN|..n], from))
  }

  /** As written, `listenForBeacon` never reports an invalid beacon, whatever arrives. */
  lemma ListenNeverInvalid(e: ListenEvent)
    ensures ListenForBeacon(e) != Failed(InvalidBeacon)
  {
    if e.Received? {
      TagCheckNeverFires(Buffer(e.datagram));
    }
  }

  /** A datagram of NULs with no tag is taken for a beacon. */
  lemma UntaggedAccepted(from: UdpAddr)
    ensures ListenForBeacon(Received(seq(23, _ => 0), from)).Heard?
  {
    TagCheckNeverFires(Buffer(seq(23, _ => 0)));
  }

  /** A datagram that starts with the tag. */
  predicate Tagged(datagram: seq<byte>)
  {
    |datagram| >= |BECN| && datagram[..|BECN|] == BECN
  }

  /** `listenForBeacon` as evidently intended: a datagram without the tag is an invalid beacon. */
  function ListenForBeaconIntended(e: ListenEvent): ListenOutcome
  {
    match e
    case SetupFailed(step, detail) => Failed(Error(SetupMessage(step) + detail))
    case ReadFailed(detail) => Failed(Error("could not read from UDP address: " + detail))
    case Received(datagram, from) =>
      var n := if |datagram| < BUFFER_SIZE then |datagram| else BUFFER_SIZE;
      if !Tagged(datagram[..n]) then Failed(InvalidBeacon)
      else Decoded(DecodeBeacon(datagram[|BECN|..n], from))
  }

  /** Intended: exactly the untagged datagrams are reported invalid, and the tag check never panics. */
  lemma ListenIntendedRejectsUntagged(datagram: seq<byte>, from: UdpAddr)
    requires |datagram| <= BUFFER_SIZE
    ensures ListenForBeaconIntended(Received(datagram, from)) == Failed(InvalidBeacon) <==> !Tagged(datagram)
  {
    assert datagram[..|datagram|] == datagram;
  }

  /** Intended: a record X-Plane sends is heard as the beacon it describes. */
  lemma ListenIntendedHearsBeacon(b: XPlaneBeacon)
    requires Sendable(b) && |BECN| + BASIC_SIZE + |b.computerName| + 2 <= BUFFER_SIZE
    ensures ListenForBeaconIntended(Received(BECN + EncodeBeacon(b), b.ip)) == Heard(b)
  {
    var d := BECN + EncodeBeacon(b);
    assert d[..|BECN|] == BECN;
    ListenIntendedPayload(d, b.ip);
    assert d[|BECN|..] == EncodeBeacon(b);
    DecodeEncodeBeacon(b);
  }

  /** Intended: a tagged datagram that fits the buffer is decoded from its sixth byte on. */
  lemma ListenIntendedPayload(d: seq<byte>, from: UdpAddr)
    requires Tagged(d) && |d| <= BUFFER_SIZE
    ensures ListenForBeaconIntended(Received(d, from)) == Decoded(DecodeBeacon(d[|BECN|..], from))
  {
    assert d[..|d|] == d;
  }

  /** As written, a datagram that fits the buffer and is at least tag-long is decoded from its sixth byte on. */
  lemma ListenPayload(d: seq<byte>, from: UdpAddr)
    requires |BECN| <= |d| <= BUFFER_SIZE
    ensures ListenForBeacon(Received(d, from)) == Decoded(DecodeBeacon(d[|BECN|..], from))
  {
    TagCheckNeverFires(Buffer(d));
    assert Buffer(d)[..|d|] == d[..|d|];
    assert Buffer(d)[|BECN|..|d|] == d[|BECN|..];
  }

  /** As written, the same record is heard too: the tag is skipped unchecked. */
  lemma ListenHearsBeacon(b: XPlaneBeacon)
    requires Sendable(b) && |BECN| + BASIC_SIZE + |b.computerName| + 2 <= BUFFER_SIZE
    ensures ListenForBeacon(Received(BECN + EncodeBeacon(b), b.ip)) == Heard(b)
  {
    var d := BECN + EncodeBeacon(b);
    ListenPayload(d, b.ip);
    assert d[|BECN|..] == EncodeBeacon(b);
    DecodeEncodeBeacon(b);
  }

  // ---------------------------------------------------------------- the search

  /** What `FindXplane` returns: a master, nothing, an error, or the panic of a listen. */
  datatype FindOutcome = Found(beacon: XPlaneBeacon) | NotFound | FindFailed(msg: string) | FindPanicked

  /** An attempt that makes `FindXplane` try again: an invalid beacon, or one that is not the master. */
  predicate Retried(o: ListenOutcome)
  {
    o == Failed(InvalidBeacon) || (o.Heard? && !IsMaster(o.beacon))
  }

  /** The result of an attempt that ends the search. */
  function Decide(o: ListenOutcome): FindOutcome
  {
    match o
    case Heard(b) => Found(b)
    case Failed(err) => if err.Error? then FindFailed(err.msg) else NotFound
    case Panicked => FindPanicked
  }

  /** The search from attempt i on, attempt k having outcome heard(k). */
  function FindFrom(heard: nat -> ListenOutcome, i: nat): FindOutcome
    decreases RETRIES - i
  {
    if i >= RETRIES then NotFound
    else if Retried(heard(i)) then FindFrom(heard, i + 1)
    else Decide(heard(i))
  }

  /** `FindXplane`: heard(k) is the outcome of the k-th `listenForBeacon`. */
  method FindXplane(heard: nat -> ListenOutcome) returns (r: FindOutcome)
    ensures r == FindFrom(heard, 0)
  {
    var i := 0;
    while i < RETRIES
      invariant i <= RETRIES
      invariant FindFrom(heard, i) == FindFrom(heard, 0)
    {
      var o := heard(i);
      if o == Failed(InvalidBeacon) {
        i := i + 1;
        continue;
      }
      if o.Failed? {
        return FindFailed(o.err.msg);
      }
      if o.Panicked? {
        return FindPanicked;
      }
      if !IsMaster(o.beacon) {
        i := i + 1;
        continue;
      }
      return Found(o.beacon);
    }
    return NotFound;
  }

  /** From a retried prefix, the search ends with the first attempt that is not retried. */
  lemma {:induction false} FindFromFirst(heard: nat -> ListenOutcome, i: nat, k: nat)
    requires i <= k < RETRIES && !Retried(heard(k))
    requires forall j | i <= j < k :: Retried(heard(j))
    ensures FindFrom(heard, i) == Decide(heard(k))
    decreases k - i
  {
    if i < k {
      FindFromFirst(heard, i + 1, k);
    }
  }

  /** When every attempt from i on is retried, nothing is found. */
  lemma {:induction false} FindFromAllRetried(heard: nat -> ListenOutcome, i: nat)
    requires forall j | i <= j < RETRIES :: Retried(heard(j))
    ensures FindFrom(heard, i) == NotFound
    decreases RETRIES - i
  {
    if i < RETRIES {
      FindFromAllRetried(heard, i + 1);
    }
  }

  /** Unless all attempts from i on are retried, some first attempt decides the search. */
  lemma {:induction false} FindFromDecided(heard: nat -> ListenOutcome, i: nat)
    requires exists j | i <= j < RETRIES :: !Retried(heard(j))
    ensures exists k | i <= k < RETRIES ::
      !Retried(heard(k)) && (forall j | i <= j < k :: Retried(heard(j))) && FindFrom(heard, i) == Decide(heard(k))
    decreases RETRIES - i
  {
    if Retried(heard(i)) {
      FindFromDecided(heard, i + 1);
      var k :| i + 1 <= k < RETRIES && !Retried(heard(k)) && (forall j | i + 1 <= j < k :: Retried(heard(j)))
                && FindFrom(heard, i + 1) == Decide(heard(k));
      assert forall j | i <= j < k :: Retried(heard(j));
    }
  }

  /**
   * A master is returned exactly when some attempt within the ten hears it
   * and every earlier attempt was retried.
   */
  lemma FindXplaneFound(heard: nat -> ListenOutcome, b: XPlaneBeacon)
    ensures FindFrom(heard, 0) == Found(b) <==>
      exists k | 0 <= k < RETRIES :: heard(k) == Heard(b) && IsMaster(b) && forall j | 0 <= j < k :: Retried(heard(j))
  {
    FindXplaneNotFound(heard);
    if FindFrom(heard, 0) == Found(b) {
      FindFromDecided(heard, 0);
    }
    if exists k | 0 <= k < RETRIES :: heard(k) == Heard(b) && IsMaster(b) && forall j | 0 <= j < k :: Retried(heard(j)) {
      var k :| 0 <= k < RETRIES && heard(k) == Heard(b) && IsMaster(b) && forall j | 0 <= j < k :: Retried(heard(j));
      FindFromFirst(heard, 0, k);
    }
  }

  /** An error ends the search at once: it is returned exactly when it is the first attempt not retried. */
  lemma FindXplaneFails(heard: nat -> ListenOutcome, msg: string)
    ensures FindFrom(heard, 0) == FindFailed(msg) <==>
      exists k | 0 <= k < RETRIES :: heard(k) == Failed(Error(msg)) && forall j | 0 <= j < k :: Retried(heard(j))
  {
    FindXplaneNotFound(heard);
    if FindFrom(heard, 0) == FindFailed(msg) {
      FindFromDecided(heard, 0);
    }
    if exists k | 0 <= k < RETRIES :: heard(k) == Failed(Error(msg)) && forall j | 0 <= j < k :: Retried(heard(j)) {
      var k :| 0 <= k < RETRIES && heard(k) == Failed(Error(msg)) && forall j | 0 <= j < k :: Retried(heard(j));
      FindFromFirst(heard, 0, k);
    }
  }

  /** Nothing (and no error) is returned exactly when all ten attempts are retried. */
  lemma FindXplaneNotFound(heard: nat -> ListenOutcome)
    ensures FindFrom(heard, 0) == NotFound <==> forall j | 0 <= j < RETRIES :: Retried(heard(j))
  {
    if forall j | 0 <= j < RETRIES :: Retried(heard(j)) {
      FindFromAllRetried(heard, 0);
    } else {
      FindFromDecided(heard, 0);
    }
  }

  /** At most RETRIES attempts are made: later outcomes do not matter. */
  lemma {:induction false} FindXplaneBounded(h1: nat -> ListenOutcome, h2: nat -> ListenOutcome, i: nat)
    requires forall j | i <= j < RETRIES :: h1(j) == h2(j)
    ensures FindFrom(h1, i) == FindFrom(h2, i)
    decreases RETRIES - i
  {
    if i < RETRIES {
      FindXplaneBounded(h1, h2, i + 1);
    }
  }

  /** `FindXplane` searching with `listenForBeacon` as written: events(k) is what the socket did on attempt k. */
  function FindListening(events: nat -> ListenEvent): FindOutcome
  {
    FindFrom((k: nat) => ListenForBeacon(events(k)), 0)
  }

  /** As written, the search retries only beacons that are not the master: no datagram is ever invalid. */
  lemma FindListeningRetried(e: ListenEvent)
    ensures Retried(ListenForBeacon(e)) <==> ListenForBeacon(e).Heard? && !IsMaster(ListenForBeacon(e).beacon)
  {
    ListenNeverInvalid(e);
  }

  /** As written, the search connects to a master whose record arrives without the tag in front. */
  lemma FindListeningUntagged(events: nat -> ListenEvent, b: XPlaneBeacon, k: nat)
    requires k < RETRIES && IsMaster(b)
    requires Sendable(b) && |BECN| + BASIC_SIZE + |b.computerName| + 2 <= BUFFER_SIZE
    requires events(k) == Received(seq(|BECN|, _ => 0) + EncodeBeacon(b), b.ip)
    requires forall j | 0 <= j < k :: Retried(ListenForBeacon(events(j)))
    ensures !Tagged(events(k).datagram)
    ensures FindListening(events) == Found(b)
  {
    var d := seq(|BECN|, _ => 0) + EncodeBeacon(b);
    assert d[0] != BECN[0];
    ListenPayload(d, b.ip);
    assert d[|BECN|..] == EncodeBeacon(b);
    DecodeEncodeBeacon(b);
    FindFromFirst((j: nat) => ListenForBeacon(events(j)), 0, k);
  }

  /** As written, a datagram shorter than the tag ends the search in a panic, unless an earlier attempt decided it. */
  lemma FindListeningShort(events: nat -> ListenEvent, k: nat)
    requires k < RETRIES && events(k).Received? && |events(k).datagram| < |BECN|
    requires forall j | 0 <= j < k :: Retried(ListenForBeacon(events(j)))
    ensures FindListening(events) == FindPanicked
  {
    TagCheckNeverFires(Buffer(events(k).datagram));
    FindFromFirst((j: nat) => ListenForBeacon(events(j)), 0, k);
  }

  /** A found beacon is always a master. */
  lemma FindXplaneMaster(heard: nat -> ListenOutcome)
    ensures FindFrom(heard, 0).Found? ==> IsMaster(FindFrom(heard, 0).beacon)
  {
    if FindFrom(heard, 0).Found? {
      FindXplaneFound(heard, FindFrom(heard, 0).beacon);
    }
  }
}
