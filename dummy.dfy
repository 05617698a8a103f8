/**
 * `Dummy`: a sink that only logs. For every position it logs the position,
 * then tries every outputter, logging each message and warning about each
 * failure; it returns nil and touches no device. Its `SendPositions` takes
 * no feedback channel, so unlike `Serial` it is not a `Sender`.
 */
module Dummy {
  import opened Wrappers
  import opened Gga
  import opened Nmea
  import opened Rpos
  import opened Outputters
  import opened Fanout
  import opened Serial

  /** The log lines `SendPositions` produces: "Position", "Output" and the "Output failed" warning. */
  datatype LogLine = PositionLine(pos: Position) | OutputLine(msg: string) | FailedLine(err: string)

  /** The log line for one result. */
  function ResultLine(r: Result<string, string>): LogLine
  {
    match r
    case Ok(msg) => OutputLine(msg)
    case Err(e) => FailedLine(e)
  }

  /** The lines for the first n results of the i-th position. */
  function RowLog(out: Grid, i: nat, n: nat): (log: seq<LogLine>)
    ensures |log| == n
  {
    if n == 0 then [] else RowLog(out, i, n - 1) + [ResultLine(out(i, n - 1))]
  }

  /** The lines for the i-th position p: the position, then its m results. */
  function PositionLog(out: Grid, m: nat, i: nat, p: Position): seq<LogLine>
  {
    [PositionLine(p)] + RowLog(out, i, m)
  }

  /** The log for the first n positions of ps, with m outputters. */
  function Log(out: Grid, m: nat, ps: seq<Position>, n: nat): seq<LogLine>
    requires n <= |ps|
  {
    if n == 0 then [] else Log(out, m, ps, n - 1) + PositionLog(out, m, n - 1, ps[n - 1])
  }

  /** The j-th line of a row logs the j-th result. */
  lemma {:induction false} RowLogAt(out: Grid, i: nat, n: nat, j: nat)
    requires j < n
    ensures RowLog(out, i, n)[j] == ResultLine(out(i, j))
  {
    if j < n - 1 {
      RowLogAt(out, i, n - 1, j);
    }
  }

  /** Every outputter is tried on every position: one line per position and one per (position, outputter). */
  lemma {:induction false} LogCount(out: Grid, m: nat, ps: seq<Position>, n: nat)
    requires n <= |ps|
    ensures |Log(out, m, ps, n)| == n * (m + 1)
  {
    if n > 0 {
      LogCount(out, m, ps, n - 1);
      assert n * (m + 1) == (n - 1) * (m + 1) + m + 1;
    }
  }

  /** Line i * (m + 1) is the i-th position. */
  lemma {:induction false} LogPositionAt(out: Grid, m: nat, ps: seq<Position>, n: nat, i: nat)
    requires n <= |ps| && i < n
    ensures i * (m + 1) < |Log(out, m, ps, n)|
    ensures Log(out, m, ps, n)[i * (m + 1)] == PositionLine(ps[i])
  {
    LogCount(out, m, ps, n - 1);
    if i < n - 1 {
      LogPositionAt(out, m, ps, n - 1, i);
      Below(i, n - 1, m + 1, 0);
    } else {
      assert i * (m + 1) == (n - 1) * (m + 1);
    }
  }

  /** Line i * (m + 1) + 1 + j logs the j-th outputter's result for the i-th position. */
  lemma {:induction false} LogResultAt(out: Grid, m: nat, ps: seq<Position>, n: nat, i: nat, j: nat)
    requires n <= |ps| && i < n && j < m
    ensures i * (m + 1) + 1 + j < |Log(out, m, ps, n)|
    ensures Log(out, m, ps, n)[i * (m + 1) + 1 + j] == ResultLine(out(i, j))
  {
    LogCount(out, m, ps, n - 1);
    if i < n - 1 {
      LogResultAt(out, m, ps, n - 1, i, j);
      Below(i, n - 1, m + 1, 1 + j);
    } else {
      assert i * (m + 1) == (n - 1) * (m + 1);
      RowLogAt(out, i, m, j);
    }
  }

  /**
   * The Dummy logs, for the j-th outputter on the i-th position, exactly the
   * result that `Serial` writes or reports at the same place in its run.
   */
  lemma LogMatchesSerial(out: Grid, m: nat, ps: seq<Position>, i: nat, j: nat)
    requires i < |ps| && j < m
    ensures i * (m + 1) + 1 + j < |Log(out, m, ps, |ps|)| && i * m + j < |Results(out, m, |ps|)|
    ensures Log(out, m, ps, |ps|)[i * (m + 1) + 1 + j] == ResultLine(Results(out, m, |ps|)[i * m + j])
  {
    LogResultAt(out, m, ps, |ps|, i, j);
    ResultsOrder(out, m, |ps|, i, j);
  }

  /** The inner loop: the i-th position through all m outputters. */
  method LogRow(out: Grid, m: nat, i: nat) returns (log: seq<LogLine>)
    ensures log == RowLog(out, i, m)
  {
    log := [];
    var j := 0;
    while j < m
      invariant j <= m
      invariant log == RowLog(out, i, j)
    {
      var r := out(i, j);
      if r.Err? {
        log := log + [FailedLine(r.error)];
      } else {
        log := log + [OutputLine(r.value)];
      }
      j := j + 1;
    }
  }

  class Dummy {
    var outputters: seq<Outputter>

    constructor(outputters: seq<Outputter>)
      ensures this.outputters == outputters
    {
      this.outputters := outputters;
    }

    /** `Configured`: always. */
    method Configured() returns (b: bool)
      ensures b
    {
      b := true;
    }

    /** `SetPort` changes nothing. */
    method SetPort(port: string)
    {
    }

    /** `SetBaud` changes nothing. */
    method SetBaud(baud: int)
    {
    }

    /** `SendPositions`: the log of every position and every output, and nil. */
    method SendPositions(ps: seq<Position>, fmts: Formats, num: Numbers, clock: (nat, nat) -> Clock)
      returns (err: Option<string>, log: seq<LogLine>)
      ensures err.None? && log == Log(Cells(outputters, fmts, num, clock, ps), |outputters|, ps, |ps|)
    {
      var out := Cells(outputters, fmts, num, clock, ps);
      log := [];
      var i := 0;
      while i < |ps|
        invariant i <= |ps|
        invariant log == Log(out, |outputters|, ps, i)
      {
        var row := LogRow(out, |outputters|, i);
        log := log + ([PositionLine(ps[i])] + row);
        i := i + 1;
      }
      err := None;
    }
  }
}
