// The I2C transport the driver calls. Its implementation (i2cDriver.h) is not
// part of this model: a read request is a value, and a fetch of the received
// bytes either fails or yields a staging buffer of arbitrary bytes.

module I2c {
  import opened Ft5x06Types

  /** Size of the decoder's stack buffer that i2c_getData fills. */
  const StagingSize: nat := 30

  /** The decoder's staging buffer after a successful fetch. */
  type Staging = s: seq<Byte> | |s| == StagingSize witness seq(StagingSize, _ => 0)

  /** An i2c_gets call: read `length` bytes from `register` of device `address`. */
  datatype ReadRequest = ReadRequest(address: Byte, register: Byte, length: int)

  /** Outcome of an i2c_getData call into the staging buffer. */
  datatype Fetch = FetchFailed | Fetched(buffer: Staging)

  /** The receiving side of the bus, as the decoder sees it. */
  class Transport {
    /** What the next i2c_getData call delivers. */
    var rx: Fetch
    /** How many times i2c_getData has been called. */
    var fetches: nat

    constructor (rx: Fetch)
      ensures this.rx == rx && fetches == 0
    {
      this.rx := rx;
      fetches := 0;
    }

    /** i2c_getData: copy the last reception into the staging buffer, or fail. */
    method GetData() returns (f: Fetch)
      modifies this`fetches
      ensures f == rx
      ensures fetches == old(fetches) + 1
    {
      f := rx;
      fetches := fetches + 1;
    }
  }
}
