/**
 * The application's configuration state: which X-Plane it talks to, the
 * serial port it feeds, how often X-Plane should send positions, and
 * whether it is running. `State` derives from these whether the app lacks
 * something, is ready to run, or is running.
 */
module App {
  import opened Wrappers
  import opened Beacon
  import Serial

  /** `AppState`, a `uint8`. */
  type AppState = x: int | 0 <= x < 0x100

  const INCOMPLETE: AppState := 0
  const RUNNING: AppState := 1
  const RUNABLE: AppState := 2

  /**
   * The state for an app that has (or lacks) an X-Plane address, a
   * configured serial port, and the running flag: it cannot run without an
   * X-Plane and a serial port.
   */
  function Classify(hasXPlane: bool, configured: bool, running: bool): (s: AppState)
    ensures s == INCOMPLETE <==> !hasXPlane || !configured
    ensures s == RUNNING <==> hasXPlane && configured && running
    ensures s == RUNABLE <==> hasXPlane && configured && !running
    ensures s == INCOMPLETE || s == RUNNING || s == RUNABLE
  {
    if hasXPlane && configured then
      if running then RUNNING else RUNABLE
    else INCOMPLETE
  }

  class App {
    var xPlane: Option<UdpAddr>
    var serial: Serial.Serial
    var positionFreq: nat
    var running: bool

    constructor(serial: Serial.Serial, positionFreq: nat)
      ensures xPlane == None && this.serial == serial && this.positionFreq == positionFreq && !running
    {
      xPlane := None;
      this.serial := serial;
      this.positionFreq := positionFreq;
      running := false;
    }

    /** `State`: reads the fields and changes none of them. */
    method State() returns (s: AppState)
      ensures s == Classify(xPlane.Some?, serial.Configured(), running)
    {
      if xPlane.Some? && serial.Configured() {
        if running {
          return RUNNING;
        }
        return RUNABLE;
      }
      return INCOMPLETE;
    }

    /** `SetXPlane` */
    method SetXPlane(addr: Option<UdpAddr>)
      modifies this
      ensures xPlane == addr
      ensures serial == old(serial) && positionFreq == old(positionFreq) && running == old(running)
    {
      xPlane := addr;
    }

    /** `SetSerialPort`: forwarded to the serial port; the app's own fields stay. */
    method SetSerialPort(port: string)
      modifies serial
      ensures serial.port == port && serial.mode == old(serial.mode) && serial.outputters == old(serial.outputters)
    {
      serial.SetPort(port);
    }

    /** `SetBaudRate`: forwarded to the serial port; the app's own fields stay. */
    method SetBaudRate(baud: int)
      modifies serial
      ensures serial.mode == old(serial.mode).(baudRate := baud)
      ensures serial.port == old(serial.port) && serial.outputters == old(serial.outputters)
    {
      serial.SetBaud(baud);
    }

    /** `SetPositionFreq` */
    method SetPositionFreq(freq: nat)
      modifies this
      ensures positionFreq == freq
      ensures xPlane == old(xPlane) && serial == old(serial) && running == old(running)
    {
      positionFreq := freq;
    }
  }
}
