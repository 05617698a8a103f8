/**
 * X-Plane's RPOS position stream: the subscription request, the 64-byte
 * little-endian position record, and the receive loop of `RequestPositions`.
 *
 * The floating-point fields of a position are kept as their IEEE-754 bit
 * patterns; the socket is represented by what each read returned.
 */
module Rpos {
  import opened Wrappers
  import opened Fmt
  import opened Bytes

  /**
   * `Position`: three float64 fields (longitude, latitude, elevation) and ten
   * float32 fields (height above terrain, pitch, heading, roll, the three
   * world velocities, the three rotation rates), each as its bits.
   */
  datatype Position = Position(
    datLon: u64, datLat: u64, datEle: u64,
    yAglMtr: u32, vehTheLoc: u32, vehPsiLoc: u32, vehPhiLoc: u32,
    vxWrl: u32, vyWrl: u32, vzWrl: u32,
    pRad: u32, qRad: u32, rRad: u32)

  /** `binary.Size(Position{})`: 3 * 8 + 10 * 4 bytes, no padding. */
  const POSITION_SIZE: nat := 64

  function F64At(b: seq<byte>, k: nat): u64
    requires k + 8 <= |b|
  {
    U64(b[k..k + 8])
  }

  function F32At(b: seq<byte>, k: nat): u32
    requires k + 4 <= |b|
  {
    U32(b[k..k + 4])
  }

  /**
   * `ReadPosition`: `binary.Read` of the record from the front of the bytes
   * (anything after the 64th byte is left unread); fewer bytes are an EOF
   * error when there are none and an unexpected EOF otherwise.
   */
  function ReadPosition(bs: seq<byte>): (r: Result<Position, string>)
    ensures r.Err? <==> |bs| < POSITION_SIZE
    ensures r.Err? ==> r.error == if |bs| == 0 then "EOF" else "unexpected EOF"
  {
    if |bs| < POSITION_SIZE then Err(if |bs| == 0 then "EOF" else "unexpected EOF")
    else
      Ok(Position(F64At(bs, 0), F64At(bs, 8), F64At(bs, 16),
                  F32At(bs, 24), F32At(bs, 28), F32At(bs, 32), F32At(bs, 36),
                  F32At(bs, 40), F32At(bs, 44), F32At(bs, 48),
                  F32At(bs, 52), F32At(bs, 56), F32At(bs, 60)))
  }

  /** The 64 bytes X-Plane sends for a position. */
  function EncodePosition(p: Position): (b: seq<byte>)
    ensures |b| == POSITION_SIZE
  {
    (Le64(p.datLon) + Le64(p.datLat) + Le64(p.datEle))
    + (Le32(p.yAglMtr) + Le32(p.vehTheLoc) + Le32(p.vehPsiLoc) + Le32(p.vehPhiLoc))
    + (Le32(p.vxWrl) + Le32(p.vyWrl) + Le32(p.vzWrl) + Le32(p.pRad) + Le32(p.qRad) + Le32(p.rRad))
  }

  /** Reading what X-Plane sends gives the position back, whatever follows it. */
  lemma ReadEncodedPosition(p: Position, rest: seq<byte>)
    ensures ReadPosition(EncodePosition(p) + rest) == Ok(p)
  {
    var e := EncodePosition(p);
    var b := e + rest;
    assert b[0..8] == Le64(p.datLon);
    assert b[8..16] == Le64(p.datLat);
    assert b[16..24] == Le64(p.datEle);
    assert b[24..28] == Le32(p.yAglMtr);
    assert b[28..32] == Le32(p.vehTheLoc);
    assert b[32..36] == Le32(p.vehPsiLoc);
    assert b[36..40] == Le32(p.vehPhiLoc);
    assert b[40..44] == Le32(p.vxWrl);
    assert b[44..48] == Le32(p.vyWrl);
    assert b[48..52] == Le32(p.vzWrl);
    assert b[52..56] == Le32(p.pRad);
    assert b[56..60] == Le32(p.qRad);
    assert b[60..64] == Le32(p.rRad);
    U64Le64(p.datLon);
    U64Le64(p.datLat);
    U64Le64(p.datEle);
    U32Le32(p.yAglMtr);
    U32Le32(p.vehTheLoc);
    U32Le32(p.vehPsiLoc);
    U32Le32(p.vehPhiLoc);
    U32Le32(p.vxWrl);
    U32Le32(p.vyWrl);
    U32Le32(p.vzWrl);
    U32Le32(p.pRad);
    U32Le32(p.qRad);
    U32Le32(p.rRad);
  }

  /** Every record of 64 bytes is some position: re-encoding what was read gives the bytes back. */
  lemma EncodeReadPosition(b: seq<byte>)
    requires |b| == POSITION_SIZE
    ensures ReadPosition(b).Ok? && EncodePosition(ReadPosition(b).value) == b
  {
    var p := ReadPosition(b).value;
    ReencodeDoubles(b);
    ReencodeAttitude(b);
    ReencodeRates(b);
    Thirds(b);
  }

  lemma Thirds(b: seq<byte>)
    requires |b| == POSITION_SIZE
    ensures b == b[0..24] + b[24..40] + b[40..64]
  {
    assert b[0..24] + b[24..40] == b[0..40];
    assert b[0..40] + b[40..64] == b[0..64];
  }

  lemma ReencodeDoubles(b: seq<byte>)
    requires |b| == POSITION_SIZE
    ensures Le64(F64At(b, 0)) + Le64(F64At(b, 8)) + Le64(F64At(b, 16)) == b[0..24]
  {
    Le64U64(b[0..8]);
    Le64U64(b[8..16]);
    Le64U64(b[16..24]);
    assert b[0..24] == b[0..8] + b[8..16] + b[16..24];
  }

  lemma ReencodeAttitude(b: seq<byte>)
    requires |b| == POSITION_SIZE
    ensures Le32(F32At(b, 24)) + Le32(F32At(b, 28)) + Le32(F32At(b, 32)) + Le32(F32At(b, 36)) == b[24..40]
  {
    Le32U32(b[24..28]);
    Le32U32(b[28..32]);
    Le32U32(b[32..36]);
    Le32U32(b[36..40]);
    assert b[24..40] == b[24..28] + b[28..32] + b[32..36] + b[36..40];
  }

  lemma ReencodeRates(b: seq<byte>)
    requires |b| == POSITION_SIZE
    ensures Le32(F32At(b, 40)) + Le32(F32At(b, 44)) + Le32(F32At(b, 48))
          + Le32(F32At(b, 52)) + Le32(F32At(b, 56)) + Le32(F32At(b, 60)) == b[40..64]
  {
    Le32U32(b[40..44]);
    Le32U32(b[44..48]);
    Le32U32(b[48..52]);
    Le32U32(b[52..56]);
    Le32U32(b[56..60]);
    Le32U32(b[60..64]);
    assert b[40..64] == b[40..44] + b[44..48] + b[48..52] + b[52..56] + b[56..60] + b[60..64];
  }

  // ---------------------------------------------------------------- the request

  /** The ASCII bytes of a string of single-byte characters. */
  function Ascii(s: string): (b: seq<byte>)
    requires forall k | 0 <= k < |s| :: s[k] as int < 0x100
    ensures |b| == |s| && forall k | 0 <= k < |s| :: b[k] == s[k] as int
  {
    seq(|s|, k requires 0 <= k < |s| => s[k] as int)
  }

  /** "RPOS" and a NUL. */
  const RPOS_NUL: seq<byte> := [0x52, 0x50, 0x4F, 0x53, 0]

  /** `getRequest(freq)`: "RPOS", NUL, the rate in decimal, NUL. A rate of 0 unsubscribes. */
  function GetRequest(freq: nat): (b: seq<byte>)
  {
    RPOS_NUL + Ascii(Itoa(freq)) + [0]
  }

  /** The inverse of GetRequest: the rate a request asks for. */
  function ParseRequest(b: seq<byte>): Option<nat>
  {
    if |b| < 7 || b[..5] != RPOS_NUL || b[|b| - 1] != 0 then None
    else
      var digits := b[5..|b| - 1];
      if forall k | 0 <= k < |digits| :: 0x30 <= digits[k] <= 0x39 then
        Some(Atoi(seq(|digits|, k requires 0 <= k < |digits| => digits[k] as char)))
      else None
  }

  lemma ParseGetRequest(freq: nat)
    ensures ParseRequest(GetRequest(freq)) == Some(freq)
  {
    var b := GetRequest(freq);
    var s := Itoa(freq);
    var digits := b[5..|b| - 1];
    assert b[..5] == RPOS_NUL;
    assert digits == Ascii(s);
    assert seq(|digits|, k requires 0 <= k < |digits| => digits[k] as char) == s;
    AtoiItoa(freq);
  }

  /** Different rates make different requests; in particular no request is the unsubscribe but rate 0's. */
  lemma GetRequestInjective(f: nat, g: nat)
    ensures GetRequest(f) == GetRequest(g) <==> f == g
  {
    if GetRequest(f) == GetRequest(g) {
      ParseGetRequest(f);
      ParseGetRequest(g);
    }
  }

  // ---------------------------------------------------------------- the receive loop

  /** One turn of the loop in `RequestPositions`: the context, then one read. */
  datatype Tick =
    | Cancelled               // `ctx.Done()` was closed
    | TimedOut                // the one-second deadline passed
    | ReadFailed              // any other read error
    | Datagram(data: seq<byte>)

  /** What `RequestPositions` does, in order. */
  datatype Action =
    | Send(request: seq<byte>)     // `conn.WriteToUDP`
    | Feedback(msg: string)        // `feedback <- msg`
    | Emit(position: Position)     // `c <- *pos`
    | Close                        // `conn.Close()`

  /** The read buffer: `make([]byte, 1500)`. */
  const READ_BUFFER: nat := 1500

  /** "RPOS4", the header of a position datagram. */
  const RPOS4: seq<byte> := [0x52, 0x50, 0x4F, 0x53, 0x34]

  /** The deferred shutdown: unsubscribe with rate 0, then close. */
  function Shutdown(): seq<Action>
  {
    [Send(GetRequest(0)), Close]
  }

  /**
   * One datagram: `buffer.Next(5)` must be "RPOS4" (a shorter datagram gives
   * fewer bytes, which differ), then a position is read from the rest.
   */
  function Handle(data: seq<byte>): seq<Action>
  {
    var buf := if |data| <= READ_BUFFER then data else data[..READ_BUFFER];
    if |buf| < 5 || buf[..5] != RPOS4 then [Feedback("Invalid header")]
    else match ReadPosition(buf[5..])
      case Err(_) => [Feedback("ReadPosition failed")]
      case Ok(p) => [Feedback(""), Emit(p)]
  }

  /** A datagram X-Plane sends (the header, a record, anything after it) yields that record. */
  lemma HandleWellFormed(p: Position, rest: seq<byte>)
    requires |RPOS4| + POSITION_SIZE + |rest| <= READ_BUFFER
    ensures Handle(RPOS4 + EncodePosition(p) + rest) == [Feedback(""), Emit(p)]
  {
    var d := RPOS4 + EncodePosition(p) + rest;
    assert d[..5] == RPOS4;
    assert d[5..] == EncodePosition(p) + rest;
    ReadEncodedPosition(p, rest);
  }

  /** Without the header nothing is read, whatever follows. */
  lemma HandleBadHeader(d: seq<byte>)
    requires |d| < 5 || d[..5] != RPOS4
    ensures Handle(d) == [Feedback("Invalid header")]
  {
    if |d| > READ_BUFFER {
      assert d[..READ_BUFFER][..5] == d[..5];
    }
  }

  /** A tick that ends the loop. */
  predicate Ends(t: Tick)
  {
    t == Cancelled || t == ReadFailed
  }

  /** The loop over the ticks; when they run out without an exit the loop is still running. */
  function Serve(ticks: seq<Tick>): seq<Action>
  {
    if |ticks| == 0 then []
    else match ticks[0]
      case Cancelled => Shutdown()
      case ReadFailed => [Feedback("Failed to read from UDP")] + Shutdown()
      case TimedOut => [Feedback("Timeout")] + Serve(ticks[1..])
      case Datagram(d) => Handle(d) + Serve(ticks[1..])
  }

  /** A run of `RequestPositions`, or the panic of a failed `ListenUDP`. */
  datatype Run = ListenPanicked | Ran(trace: seq<Action>)

  /** The whole session; requestSent says whether the subscription write succeeded. */
  function Session(listenOk: bool, requestSent: bool, freq: nat, ticks: seq<Tick>): Run
  {
    if !listenOk then ListenPanicked
    else if !requestSent then Ran([Send(GetRequest(freq)), Feedback("Failed to request positions")] + Shutdown())
    else Ran([Send(GetRequest(freq))] + Serve(ticks))
  }

  /** The loop from the i-th tick on: that tick's actions, then the rest unless it ends the loop. */
  lemma ServeAt(ticks: seq<Tick>, i: nat)
    requires i < |ticks|
    ensures Serve(ticks[i..]) ==
      match ticks[i]
      case Cancelled => Shutdown()
      case ReadFailed => [Feedback("Failed to read from UDP")] + Shutdown()
      case TimedOut => [Feedback("Timeout")] + Serve(ticks[i + 1..])
      case Datagram(d) => Handle(d) + Serve(ticks[i + 1..])
  {
    assert ticks[i..][1..] == ticks[i + 1..];
  }

  lemma Regroup(a: seq<Action>, b: seq<Action>, c: seq<Action>, whole: seq<Action>)
    requires a + (b + c) == whole
    ensures (a + b) + c == whole
  {
  }

  /** `RequestPositions` */
  method RequestPositions(listenOk: bool, requestSent: bool, freq: nat, ticks: seq<Tick>) returns (r: Run)
    ensures r == Session(listenOk, requestSent, freq, ticks)
  {
    if !listenOk {
      return ListenPanicked;
    }
    var trace := [Send(GetRequest(freq))];
    if !requestSent {
      trace := trace + [Feedback("Failed to request positions")];
      return Ran(trace + Shutdown());
    }
    var i := 0;
    while i < |ticks|
      invariant i <= |ticks|
      invariant trace + Serve(ticks[i..]) == [Send(GetRequest(freq))] + Serve(ticks)
    {
      ServeAt(ticks, i);
      match ticks[i] {
        case Cancelled =>
          return Ran(trace + Shutdown());
        case ReadFailed =>
          return Ran(trace + ([Feedback("Failed to read from UDP")] + Shutdown()));
        case TimedOut =>
          Regroup(trace, [Feedback("Timeout")], Serve(ticks[i + 1..]), [Send(GetRequest(freq))] + Serve(ticks));
          trace := trace + [Feedback("Timeout")];
        case Datagram(d) =>
          Regroup(trace, Handle(d), Serve(ticks[i + 1..]), [Send(GetRequest(freq))] + Serve(ticks));
          trace := trace + Handle(d);
      }
      i := i + 1;
    }
    return Ran(trace);
  }

  // ---------------------------------------------------------------- properties of a run

  /** The ticks the loop gets to: those up to and including the first that ends it. */
  function Live(ticks: seq<Tick>): seq<Tick>
  {
    if |ticks| == 0 then []
    else if Ends(ticks[0]) then [ticks[0]]
    else [ticks[0]] + Live(ticks[1..])
  }

  /** The positions a datagram yields: none, or the one read from it. */
  function Received(t: Tick): seq<Position>
  {
    if t.Datagram? then Emitted(Handle(t.data)) else []
  }

  function EmittedAll(ticks: seq<Tick>): seq<Position>
  {
    if |ticks| == 0 then [] else Received(ticks[0]) + EmittedAll(ticks[1..])
  }

  /** The positions put on the channel, in order. */
  function Emitted(trace: seq<Action>): seq<Position>
  {
    if |trace| == 0 then []
    else (if trace[0].Emit? then [trace[0].position] else []) + Emitted(trace[1..])
  }

  /** The requests written to X-Plane, in order. */
  function Requests(trace: seq<Action>): seq<seq<byte>>
  {
    if |trace| == 0 then []
    else (if trace[0].Send? then [trace[0].request] else []) + Requests(trace[1..])
  }

  lemma {:induction false} EmittedConcat(a: seq<Action>, b: seq<Action>)
    ensures Emitted(a + b) == Emitted(a) + Emitted(b)
    decreases |a|
  {
    if |a| > 0 {
      assert (a + b)[1..] == a[1..] + b;
      EmittedConcat(a[1..], b);
    } else {
      assert a + b == b;
    }
  }

  lemma {:induction false} RequestsConcat(a: seq<Action>, b: seq<Action>)
    ensures Requests(a + b) == Requests(a) + Requests(b)
    decreases |a|
  {
    if |a| > 0 {
      assert (a + b)[1..] == a[1..] + b;
      RequestsConcat(a[1..], b);
    } else {
      assert a + b == b;
    }
  }

  lemma HandleShape(d: seq<byte>)
    ensures Requests(Handle(d)) == []
    ensures Close !in Handle(d)
    ensures Announced(Handle(d))
  {
    var h := Handle(d);
    if |h| == 2 {
      assert Requests(h) == Requests(h[1..]);
      assert h[1..][1..] == [];
    } else {
      assert h[1..] == [];
    }
  }

  /**
   * The channel gets, in order, the position of every well-formed datagram
   * among the ticks the loop gets to.
   */
  lemma {:induction false} ServeEmits(ticks: seq<Tick>)
    ensures Emitted(Serve(ticks)) == EmittedAll(Live(ticks))
    decreases |ticks|
  {
    if |ticks| > 0 {
      var t := ticks[0];
      assert Emitted(Shutdown()) == [] by {
        assert Shutdown()[1..][1..] == [];
      }
      assert Emitted([Feedback("Failed to read from UDP")] + Shutdown()) == [] by {
        EmittedConcat([Feedback("Failed to read from UDP")], Shutdown());
      }
      assert Live(ticks)[1..] == Live(ticks[1..]) || Ends(t);
      match t
      case Cancelled =>
        assert EmittedAll(Live(ticks)) == Received(t) + EmittedAll([]);
      case ReadFailed =>
        assert EmittedAll(Live(ticks)) == Received(t) + EmittedAll([]);
      case TimedOut =>
        EmittedConcat([Feedback("Timeout")], Serve(ticks[1..]));
        ServeEmits(ticks[1..]);
      case Datagram(d) =>
        EmittedConcat(Handle(d), Serve(ticks[1..]));
        ServeEmits(ticks[1..]);
    }
  }

  /** The loop reaches a tick that ends it. */
  predicate Exits(ticks: seq<Tick>)
  {
    exists k | 0 <= k < |ticks| :: Ends(ticks[k])
  }

  /** X-Plane is told to stop, once, exactly when the loop ended; nothing else is written to it. */
  lemma {:induction false} ServeRequests(ticks: seq<Tick>)
    ensures Requests(Serve(ticks)) == if Exits(ticks) then [GetRequest(0)] else []
    decreases |ticks|
  {
    if |ticks| > 0 {
      var t := ticks[0];
      assert Requests(Shutdown()) == [GetRequest(0)] by {
        assert Shutdown()[1..][1..] == [];
      }
      match t
      case Cancelled =>
      case ReadFailed =>
        RequestsConcat([Feedback("Failed to read from UDP")], Shutdown());
      case TimedOut =>
        Rest(ticks);
        RequestsConcat([Feedback("Timeout")], Serve(ticks[1..]));
        ServeRequests(ticks[1..]);
      case Datagram(d) =>
        Rest(ticks);
        HandleShape(d);
        RequestsConcat(Handle(d), Serve(ticks[1..]));
        ServeRequests(ticks[1..]);
    } else {
      assert Requests([]) == [];
    }
  }

  /** The trace's last action closes the socket. */
  predicate ClosedLast(s: seq<Action>)
  {
    |s| > 0 && s[|s| - 1] == Close
  }

  /** The socket is closed at most once, as the last action. */
  predicate ClosedOnce(s: seq<Action>)
  {
    Close in s ==> ClosedLast(s) && Close !in s[..|s| - 1]
  }

  /** The socket is closed exactly when the loop ended. */
  lemma {:induction false} ServeCloses(ticks: seq<Tick>)
    ensures Exits(ticks) <==> ClosedLast(Serve(ticks))
    decreases |ticks|
  {
    if |ticks| > 0 {
      match ticks[0]
      case Cancelled =>
      case ReadFailed =>
      case TimedOut =>
        Rest(ticks);
        ServeCloses(ticks[1..]);
        LastOfConcat([Feedback("Timeout")], Serve(ticks[1..]));
      case Datagram(d) =>
        Rest(ticks);
        HandleShape(d);
        ServeCloses(ticks[1..]);
        LastOfConcat(Handle(d), Serve(ticks[1..]));
    }
  }

  /** The close, when there is one, is the last action and the only close. */
  lemma {:induction false} ServeClosesOnce(ticks: seq<Tick>)
    ensures ClosedOnce(Serve(ticks))
    decreases |ticks|
  {
    if |ticks| > 0 {
      var s := Serve(ticks);
      match ticks[0]
      case Cancelled =>
        assert s[..|s| - 1] == [Send(GetRequest(0))];
      case ReadFailed =>
        assert s[..|s| - 1] == [Feedback("Failed to read from UDP"), Send(GetRequest(0))];
      case TimedOut =>
        ServeClosesOnce(ticks[1..]);
        Prefixed([Feedback("Timeout")], Serve(ticks[1..]));
      case Datagram(d) =>
        HandleShape(d);
        ServeClosesOnce(ticks[1..]);
        Prefixed(Handle(d), Serve(ticks[1..]));
    }
  }

  /** A tick that does not end the loop leaves the question to the rest. */
  lemma Rest(ticks: seq<Tick>)
    requires |ticks| > 0 && !Ends(ticks[0])
    ensures Exits(ticks) <==> Exits(ticks[1..])
  {
    if Exits(ticks) {
      var k :| 0 <= k < |ticks| && Ends(ticks[k]);
      assert ticks[1..][k - 1] == ticks[k];
    }
    if Exits(ticks[1..]) {
      var k :| 0 <= k < |ticks[1..]| && Ends(ticks[1..][k]);
      assert ticks[k + 1] == ticks[1..][k];
    }
  }

  /** A Close-free prefix does not change whether the trace ends in a close. */
  lemma LastOfConcat(a: seq<Action>, b: seq<Action>)
    requires Close !in a
    ensures ClosedLast(a + b) <==> ClosedLast(b)
  {
    if |b| == 0 {
      assert a + b == a;
    }
  }

  /** A Close-free prefix keeps the close the last and only one. */
  lemma Prefixed(a: seq<Action>, b: seq<Action>)
    requires Close !in a && ClosedOnce(b)
    ensures ClosedOnce(a + b)
  {
    if Close in a + b {
      assert Close in b;
      assert (a + b)[..|a + b| - 1] == a + b[..|b| - 1];
    }
  }

  /** Every Emit in a trace comes right after an empty feedback. */
  predicate Announced(s: seq<Action>)
  {
    forall k | 0 <= k < |s| :: s[k].Emit? ==> k > 0 && s[k - 1] == Feedback("")
  }

  lemma AnnouncedConcat(a: seq<Action>, b: seq<Action>)
    requires Announced(a) && Announced(b)
    ensures Announced(a + b)
  {
    forall k | |a| <= k < |a + b| && (a + b)[k].Emit?
      ensures k > |a| && (a + b)[k - 1] == Feedback("")
    {
      assert b[k - |a|].Emit?;
    }
  }

  /** Every position put on the channel is announced by an empty feedback just before it. */
  lemma {:induction false} ServeAnnounces(ticks: seq<Tick>)
    ensures Announced(Serve(ticks))
    decreases |ticks|
  {
    if |ticks| > 0 {
      match ticks[0]
      case Cancelled =>
      case ReadFailed =>
      case TimedOut =>
        ServeAnnounces(ticks[1..]);
        AnnouncedConcat([Feedback("Timeout")], Serve(ticks[1..]));
      case Datagram(d) =>
        ServeAnnounces(ticks[1..]);
        HandleShape(d);
        AnnouncedConcat(Handle(d), Serve(ticks[1..]));
    }
  }

  /**
   * A session subscribes with its rate first; it unsubscribes (and closes
   * the socket, last) exactly when it ends, and never otherwise writes.
   */
  lemma SessionRequests(listenOk: bool, requestSent: bool, freq: nat, ticks: seq<Tick>)
    requires listenOk
    ensures var tr := Session(listenOk, requestSent, freq, ticks).trace;
      && tr[0] == Send(GetRequest(freq))
      && Requests(tr) == [GetRequest(freq)] +
           (if !requestSent || Exits(ticks) then [GetRequest(0)] else [])
  {
    var tr := Session(listenOk, requestSent, freq, ticks).trace;
    assert Requests([Send(GetRequest(freq))]) == [GetRequest(freq)] by {
      assert [Send(GetRequest(freq))][1..] == [];
    }
    assert Requests(Shutdown()) == [GetRequest(0)] by {
      assert Shutdown()[1..][1..] == [];
    }
    if requestSent {
      RequestsConcat([Send(GetRequest(freq))], Serve(ticks));
      ServeRequests(ticks);
    } else {
      var head := [Send(GetRequest(freq)), Feedback("Failed to request positions")];
      assert Requests(head) == [GetRequest(freq)] by {
        assert head[1..][1..] == [];
      }
      RequestsConcat(head, Shutdown());
    }
  }
}
