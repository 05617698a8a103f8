/**
 * The serial library as the connector uses it: the line settings of
 * `serial.Mode` and a device that records what is done to it. Whether
 * `serial.Open` fails is part of the device's state.
 */
module Port {
  import opened Wrappers

  /** `serial.Parity` and `serial.StopBits`, in their declaration order (the first is the zero value). */
  datatype Parity = NoParity | OddParity | EvenParity | MarkParity | SpaceParity
  datatype StopBits = OneStopBit | OnePointFiveStopBits | TwoStopBits

  /** `serial.Mode` */
  datatype Mode = Mode(baudRate: int, dataBits: int, parity: Parity, stopBits: StopBits)

  /** The mode `NewSerial` starts with: 9600 baud, 8 data bits, no parity (and the zero stop bits). */
  const DEFAULT_MODE: Mode := Mode(9600, 8, NoParity, OneStopBit)

  /** A serial device: how opening it will go, how it was opened, what was written and how often it was closed. */
  class Device {
    var openError: Option<string>
    var opens: nat
    var openedWith: seq<(string, Mode)>
    var written: string
    var closes: nat

    constructor(openError: Option<string>)
      ensures this.openError == openError && opens == 0 && openedWith == [] && written == [] && closes == 0
    {
      this.openError := openError;
      opens := 0;
      openedWith := [];
      written := [];
      closes := 0;
    }

    /** `serial.Open(port, mode)` */
    method Open(port: string, mode: Mode) returns (err: Option<string>)
      modifies this
      ensures err == openError
      ensures err.Some? ==> opens == old(opens) && openedWith == old(openedWith)
      ensures err.None? ==> opens == old(opens) + 1 && openedWith == old(openedWith) + [(port, mode)]
      ensures openError == old(openError) && written == old(written) && closes == old(closes)
    {
      err := openError;
      if err.None? {
        opens := opens + 1;
        openedWith := openedWith + [(port, mode)];
      }
    }

    /** `ser.Write([]byte(msg))`; its result is ignored by the caller. */
    method Write(msg: string)
      modifies this
      ensures written == old(written) + msg
      ensures openError == old(openError) && opens == old(opens) && openedWith == old(openedWith)
      ensures closes == old(closes)
    {
      written := written + msg;
    }

    /** `ser.Close()` */
    method Close()
      modifies this
      ensures closes == old(closes) + 1
      ensures openError == old(openError) && opens == old(opens) && openedWith == old(openedWith)
      ensures written == old(written)
    {
      closes := closes + 1;
    }
  }
}
