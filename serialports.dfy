/** The part of a pyserial `Serial` handle the guitar listener touches: whether
    it is open, `open()` (which fails when the device does not exist) and
    `close()`. Reading lines is not modelled here: the listener's loop takes
    the lines it reads as its argument. */
module SerialPorts {

  class SerialPort {
    /** Whether the device behind the port exists and can be opened. */
    const available: bool
    /** `is_open` */
    var isOpen: bool

    constructor (available: bool, isOpen: bool)
      requires isOpen ==> available
      ensures this.available == available && this.isOpen == isOpen
    {
      this.available := available;
      this.isOpen := isOpen;
    }

    /** `open()`: succeeds exactly when the device exists; a failure is the
        `SerialException` the caller sees. */
    method Open() returns (ok: bool)
      requires !isOpen
      modifies this
      ensures ok == available && isOpen == available
    {
      ok := available;
      isOpen := available;
    }

    /** `close()` */
    method Close()
      modifies this
      ensures !isOpen
    {
      isOpen := false;
    }
  }
}
