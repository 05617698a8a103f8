/**
 * The order in which `SendPositions` feeds positions to outputters, stated
 * over a grid of results: what reaches the device and what is reported.
 */
module Fanout {
  import opened Wrappers
  import opened Port
  import Fmt


  /**
   * The fan-out is described over a grid of results: out(i, j) is what the
   * j-th outputter returns for the i-th position.
   */
  type Grid = (nat, nat) -> Result<string, string>

  /** The results of the first n outputters on the i-th position. */
  function Row(out: Grid, i: nat, n: nat): (rs: seq<Result<string, string>>)
    ensures |rs| == n
  {
    if n == 0 then [] else Row(out, i, n - 1) + [out(i, n - 1)]
  }

  /** The j-th result of a row is the j-th outputter's. */
  lemma {:induction false} RowAt(out: Grid, i: nat, n: nat, j: nat)
    requires j < n
    ensures Row(out, i, n)[j] == out(i, j)
  {
    if j < n - 1 {
      RowAt(out, i, n - 1, j);
    }
  }

  /** The results for the first n positions, position by position, each row in outputter order (m outputters). */
  function Results(out: Grid, m: nat, n: nat): seq<Result<string, string>>
  {
    if n == 0 then [] else Results(out, m, n - 1) + Row(out, n - 1, m)
  }

  /** What reaches the device: the successful messages, verbatim, in order. */
  function Written(rs: seq<Result<string, string>>): string
  {
    if |rs| == 0 then []
    else Written(rs[..|rs| - 1]) + (if rs[|rs| - 1].Ok? then rs[|rs| - 1].value else [])
  }

  /** The feedback: one "Output failed" per failed output. */
  function Complaints(rs: seq<Result<string, string>>): seq<string>
  {
    if |rs| == 0 then []
    else Complaints(rs[..|rs| - 1]) + (if rs[|rs| - 1].Err? then ["Output failed"] else [])
  }

  lemma {:induction false} WrittenConcat(a: seq<Result<string, string>>, b: seq<Result<string, string>>)
    ensures Written(a + b) == Written(a) + Written(b)
    decreases |b|
  {
    if |b| == 0 {
      assert a + b == a;
    } else {
      assert (a + b)[..|a + b| - 1] == a + b[..|b| - 1];
      WrittenConcat(a, b[..|b| - 1]);
    }
  }

  lemma {:induction false} ComplaintsConcat(a: seq<Result<string, string>>, b: seq<Result<string, string>>)
    ensures Complaints(a + b) == Complaints(a) + Complaints(b)
    decreases |b|
  {
    if |b| == 0 {
      assert a + b == a;
    } else {
      assert (a + b)[..|a + b| - 1] == a + b[..|b| - 1];
      ComplaintsConcat(a, b[..|b| - 1]);
    }
  }

  /** Every position meets every outputter: the results number n * m. */
  lemma {:induction false} ResultsCount(out: Grid, m: nat, n: nat)
    ensures |Results(out, m, n)| == n * m
  {
    if n > 0 {
      ResultsCount(out, m, n - 1);
      assert n * m == (n - 1) * m + m;
    }
  }

  /** Row-major indexing: cell (i, j) of rows of width w lies before row k when i < k. */
  lemma Below(i: nat, k: nat, w: nat, j: nat)
    requires i < k && j < w
    ensures i * w + j < k * w
  {
    assert k * w == i * w + (k - i) * w;
    Fmt.MulLess(k - i, w);
  }

  /** The result at i * m + j is that of the j-th outputter on the i-th position. */
  lemma {:induction false} ResultsOrder(out: Grid, m: nat, n: nat, i: nat, j: nat)
    requires i < n && j < m
    ensures i * m + j < |Results(out, m, n)|
    ensures Results(out, m, n)[i * m + j] == out(i, j)
  {
    ResultsCount(out, m, n - 1);
    ResultsCount(out, m, n);
    if i < n - 1 {
      ResultsOrder(out, m, n - 1, i, j);
      Below(i, n - 1, m, j);
    } else {
      assert i * m == (n - 1) * m;
      RowAt(out, i, m, j);
    }
  }

  /** Outputs none of which failed send no complaint. */
  lemma {:induction false} NoComplaints(rs: seq<Result<string, string>>)
    requires forall k | 0 <= k < |rs| :: rs[k].Ok?
    ensures Complaints(rs) == []
  {
    if |rs| > 0 {
      NoComplaints(rs[..|rs| - 1]);
    }
  }

  /** When no cell of the grid fails, no result of the fan-out fails. */
  lemma {:induction false} ResultsOk(out: Grid, m: nat, n: nat)
    requires forall i, j | 0 <= i < n && 0 <= j < m :: out(i, j).Ok?
    ensures forall k | 0 <= k < |Results(out, m, n)| :: Results(out, m, n)[k].Ok?
  {
    if n > 0 {
      ResultsOk(out, m, n - 1);
      var done: seq<Result<string, string>>, row: seq<Result<string, string>> := Results(out, m, n - 1), Row(out, n - 1, m);
      forall k | 0 <= k < |done + row|
        ensures (done + row)[k].Ok?
      {
        if k >= |done| {
          RowAt(out, n - 1, m, k - |done|);
        }
      }
    }
  }

  /** A failing output only loses its own message: the others are written as if it were not there. */
  lemma SkipsFailure(a: seq<Result<string, string>>, e: string, b: seq<Result<string, string>>)
    ensures Written(a + [Err(e)] + b) == Written(a) + Written(b)
    ensures Complaints(a + [Err(e)] + b) == Complaints(a) + ["Output failed"] + Complaints(b)
  {
    WrittenConcat(a + [Err(e)], b);
    ComplaintsConcat(a + [Err(e)], b);
    assert (a + [Err(e)])[..|a|] == a;
  }

  /** One more outputter adds its message, or its complaint. */
  lemma RowStep(out: Grid, i: nat, j: nat)
    ensures Written(Row(out, i, j + 1)) == Written(Row(out, i, j)) + (if out(i, j).Ok? then out(i, j).value else [])
    ensures Complaints(Row(out, i, j + 1)) == Complaints(Row(out, i, j)) + (if out(i, j).Err? then ["Output failed"] else [])
  {
    assert Row(out, i, j + 1)[..j] == Row(out, i, j);
  }

  /** One more position adds its row's messages and complaints. */
  lemma ResultsStep(out: Grid, m: nat, i: nat)
    ensures Written(Results(out, m, i + 1)) == Written(Results(out, m, i)) + Written(Row(out, i, m))
    ensures Complaints(Results(out, m, i + 1)) == Complaints(Results(out, m, i)) + Complaints(Row(out, i, m))
  {
    WrittenConcat(Results(out, m, i), Row(out, i, m));
    ComplaintsConcat(Results(out, m, i), Row(out, i, m));
  }

  lemma Regroup(a: string, b: string, c: string, whole: string)
    requires (a + b) + c == whole
    ensures a + (b + c) == whole
  {
  }

  /** One outputter's result: a message is written to the device, a failure is reported. */
  method SendOne(r: Result<string, string>, dev: Device) returns (complaints: seq<string>)
    modifies dev
    ensures dev.written == old(dev.written) + (if r.Ok? then r.value else [])
    ensures complaints == if r.Err? then ["Output failed"] else []
    ensures dev.openError == old(dev.openError) && dev.opens == old(dev.opens)
    ensures dev.openedWith == old(dev.openedWith) && dev.closes == old(dev.closes)
  {
    if r.Err? {
      assert old(dev.written) + [] == old(dev.written);
      return ["Output failed"];
    }
    dev.Write(r.value);
    return [];
  }

  /** The inner loop of `SendPositions`: the i-th position through all m outputters. */
  method SendRow(out: Grid, m: nat, i: nat, dev: Device) returns (complaints: seq<string>)
    modifies dev
    ensures dev.written == old(dev.written) + Written(Row(out, i, m)) && complaints == Complaints(Row(out, i, m))
    ensures dev.openError == old(dev.openError) && dev.opens == old(dev.opens)
    ensures dev.openedWith == old(dev.openedWith) && dev.closes == old(dev.closes)
  {
    complaints := [];
    var j := 0;
    while j < m
      invariant j <= m
      invariant dev.written == old(dev.written) + Written(Row(out, i, j))
      invariant complaints == Complaints(Row(out, i, j))
      invariant dev.openError == old(dev.openError) && dev.opens == old(dev.opens)
      invariant dev.openedWith == old(dev.openedWith) && dev.closes == old(dev.closes)
    {
      var r := out(i, j);
      RowStep(out, i, j);
      var c := SendOne(r, dev);
      complaints := complaints + c;
      Regroup(old(dev.written), Written(Row(out, i, j)), if r.Ok? then r.value else [], dev.written);
      j := j + 1;
    }
  }

  /** The outer loop of `SendPositions`: n positions, each through all m outputters. */
  method SendAll(out: Grid, m: nat, n: nat, dev: Device) returns (feedback: seq<string>)
    modifies dev
    ensures dev.written == old(dev.written) + Written(Results(out, m, n)) && feedback == Complaints(Results(out, m, n))
    ensures dev.openError == old(dev.openError) && dev.opens == old(dev.opens)
    ensures dev.openedWith == old(dev.openedWith) && dev.closes == old(dev.closes)
  {
    feedback := [];
    var i := 0;
    while i < n
      invariant i <= n
      invariant dev.written == old(dev.written) + Written(Results(out, m, i))
      invariant feedback == Complaints(Results(out, m, i))
      invariant dev.openError == old(dev.openError) && dev.opens == old(dev.opens)
      invariant dev.openedWith == old(dev.openedWith) && dev.closes == old(dev.closes)
    {
      var complaints := SendRow(out, m, i, dev);
      ResultsStep(out, m, i);
      Regroup(old(dev.written), Written(Results(out, m, i)), Written(Row(out, i, m)), dev.written);
      feedback := feedback + complaints;
      i := i + 1;
    }
  }
}

/**
 * The serial sink: the port configuration held by `Serial`, and
 * `SendPositions`, which opens the port, passes every position through every
 * outputter in order, writes each sentence that was produced, and closes the
 * port when the positions run out.
 *
 * The serial device is a `Device` object that records what happens to it;
 * whether `serial.Open` fails is part of its state.
 */
module Serial {
  import opened Wrappers
  import opened Nmea
  import opened Gga
  import opened Rpos
  import opened Outputters
  import opened Port
  import opened Fanout

  /** The grid of a run: outputter j on position ps[i], at the time clock(i, j). */
  function Cells(outs: seq<Outputter>, fmts: Formats, num: Numbers, clock: (nat, nat) -> Clock, ps: seq<Position>): Grid
  {
    (i: nat, j: nat) => if i < |ps| && j < |outs| then Output(outs[j], fmts, num, clock(i, j), ps[i]) else Err("")
  }

  /** The built-in outputters. */
  predicate BuiltIn(o: Outputter)
  {
    o.GGA? || o.VTG?
  }

  /** With only GGA and VTG outputters nothing fails, so no "Output failed" is ever sent. */
  lemma BuiltInNeverComplain(outs: seq<Outputter>, fmts: Formats, num: Numbers, clock: (nat, nat) -> Clock, ps: seq<Position>)
    requires forall j | 0 <= j < |outs| :: BuiltIn(outs[j])
    ensures Complaints(Results(Cells(outs, fmts, num, clock, ps), |outs|, |ps|)) == []
  {
    var out := Cells(outs, fmts, num, clock, ps);
    forall i, j | 0 <= i < |ps| && 0 <= j < |outs|
      ensures out(i, j).Ok?
    {
      if outs[j].GGA? {
        GGAOutput(fmts, num, clock(i, j), ps[i]);
      } else {
        VTGOutput(fmts, num, clock(i, j), ps[i]);
      }
    }
    ResultsOk(out, |outs|, |ps|);
    NoComplaints(Results(out, |outs|, |ps|));
  }

  class Serial {
    var port: string
    var mode: Mode
    var outputters: seq<Outputter>

    /** `NewSerial` */
    constructor(outputters: seq<Outputter>)
      ensures port == "" && mode == DEFAULT_MODE && this.outputters == outputters
    {
      port := "";
      mode := DEFAULT_MODE;
      this.outputters := outputters;
    }

    /** `Configured`: a port is named and the baud rate is not zero. */
    predicate Configured()
      reads this
    {
      port != "" && mode.baudRate != 0
    }

    method SetPort(port: string)
      modifies this
      ensures this.port == port && mode == old(mode) && outputters == old(outputters)
    {
      this.port := port;
    }

    method SetBaud(baud: int)
      modifies this
      ensures mode == old(mode).(baudRate := baud) && port == old(port) && outputters == old(outputters)
    {
      mode := mode.(baudRate := baud);
    }

    method SetDataBits(dataBits: int)
      modifies this
      ensures mode == old(mode).(dataBits := dataBits) && port == old(port) && outputters == old(outputters)
    {
      mode := mode.(dataBits := dataBits);
    }

    method SetParity(parity: Parity)
      modifies this
      ensures mode == old(mode).(parity := parity) && port == old(port) && outputters == old(outputters)
    {
      mode := mode.(parity := parity);
    }

    method SetStopBits(stopBits: StopBits)
      modifies this
      ensures mode == old(mode).(stopBits := stopBits) && port == old(port) && outputters == old(outputters)
    {
      mode := mode.(stopBits := stopBits);
    }

    /** `Mode`: a copy of the current mode. */
    method GetMode() returns (m: Mode)
      ensures m == mode
    {
      m := mode;
    }

    /**
     * `SendPositions`: on an open failure, "Failed to open serial port" and
     * the error, with no position consumed; otherwise the device gets the
     * successful outputs in (position, outputter) order, every failed output
     * sends "Output failed", the device is closed once, and nil is returned.
     */
    method SendPositions(ps: seq<Position>, fmts: Formats, num: Numbers, clock: (nat, nat) -> Clock, dev: Device)
      returns (err: Option<string>, feedback: seq<string>)
      modifies dev
      ensures old(dev.openError).Some? ==>
        && err == old(dev.openError) && feedback == ["Failed to open serial port"]
        && dev.written == old(dev.written) && dev.closes == old(dev.closes) && dev.opens == old(dev.opens)
        && dev.openedWith == old(dev.openedWith)
      ensures dev.openError == old(dev.openError)
      ensures old(dev.openError).None? ==>
        var rs := Results(Cells(outputters, fmts, num, clock, ps), |outputters|, |ps|);
        && err.None?
        && dev.openedWith == old(dev.openedWith) + [(port, mode)] && dev.opens == old(dev.opens) + 1
        && dev.written == old(dev.written) + Written(rs)
        && feedback == Complaints(rs)
        && dev.closes == old(dev.closes) + 1
    {
      err := dev.Open(port, mode);
      if err.Some? {
        feedback := ["Failed to open serial port"];
        return;
      }
      feedback := SendAll(Cells(outputters, fmts, num, clock, ps), |outputters|, |ps|, dev);
      dev.Close();
    }
  }

  /** A fresh Serial is not configured: it has no port yet. */
  lemma NewSerialUnconfigured(s: Serial)
    requires s.port == "" && s.mode == DEFAULT_MODE
    ensures !s.Configured()
  {
  }
}
