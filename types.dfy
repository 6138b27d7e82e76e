/** Value types shared by every layer of the SCC1 command model: bytes, the
    request that goes over the link, and the errors the Python code raises. */
module Scc1Types {

  /** One octet, as Python's `bytes` elements and `struct` 'B' fields are. */
  type Byte = x: int | 0 <= x < 0x100

  type Bytes = seq<Byte>

  datatype Option<+T> = None | Some(value: T)

  /** The exceptions the core raises, as one datatype. */
  datatype Error =
    | StructError           // struct.pack / struct.unpack: a field out of range or the wrong byte count
    | ZeroDivision          // ZeroDivisionError
    | ValueError            // ValueError (range checks, int(s, 16), UTF-8 decoding)
    | KeyError              // a dictionary lookup of a missing key
    | NotSupported          // Scc1NotSupportedException
    | InvalidDataReceived   // Scc1InvalidDataReceived
    | InvalidProductId(productId: int)  // Scc1InvalidProductId

  datatype Result<+T> = Ok(value: T) | Err(error: Error)

  /** The outcome of an operation that returns nothing (Python `None`) or raises. */
  datatype Outcome = Pass | Fail(error: Error)

  /** One exchange handed to the transport: command id, payload and timeout in seconds. */
  datatype Request = Request(command: int, payload: Bytes, timeout: real)
}
