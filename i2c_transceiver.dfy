/** I2C passthrough over the SCC1 cable: an inner I2C request is wrapped in
    a five-byte big-endian envelope (slave address, tx length, rx length,
    read delay in milliseconds) and sent as the payload of command 0x2A. */
module I2cTransceiver {
  import opened Scc1Types
  import opened BigEndian
  import opened ShdlcLink
  import opened ShdlcDevice

  const I2cPassthroughCommand := 0x2A

  /** Timeout of an I2C exchange when the caller gives none. */
  const DefaultI2cTimeout: real := 0.01

  /** What an inner I2C request carries: bytes to write (or none), bytes to read
      (or none) and the delay in seconds between writing and reading. */
  datatype RxTx = RxTx(txData: Option<Bytes>, rxLength: Option<int>, readDelay: real)

  /** The fields of an envelope, as a receiver reads them back. */
  datatype Envelope = Envelope(slaveAddress: int, txData: Bytes, rxLength: int, delayMs: int)

  /** Python's int() of a float: truncation toward zero. */
  function Truncate(x: real): (n: int)
    ensures x >= 0.0 ==> n as real <= x < n as real + 1.0
    ensures x < 0.0 ==> n as real - 1.0 < x <= n as real
  {
    if x >= 0.0 then x.Floor else -((-x).Floor)
  }

  /** int(read_delay * 1000): the delay in whole milliseconds, truncated. */
  function DelayMilliseconds(readDelay: real): (ms: int)
    ensures readDelay >= 0.0 ==> 0 <= ms && ms as real <= readDelay * 1000.0 < ms as real + 1.0
    ensures readDelay < 0.0 ==> ms <= 0
  {
    Truncate(readDelay * 1000.0)
  }

  /** The bytes to write; None means none. */
  function TxBytes(txData: Option<Bytes>): (tx: Bytes)
    ensures txData.None? ==> tx == []
    ensures txData.Some? ==> tx == txData.value
  {
    if txData.None? then [] else txData.value
  }

  /** The number of bytes to read; None means zero. */
  function RxLength(rxLength: Option<int>): (n: int)
    ensures rxLength.None? ==> n == 0
    ensures rxLength.Some? ==> n == rxLength.value
  {
    if rxLength.None? then 0 else rxLength.value
  }

  /** struct.pack('>BBBH', ...): fails unless every field fits its width. */
  function PackEnvelopeHeader(slaveAddress: int, txSize: int, rxLength: int, delayMs: int): (r: Result<Bytes>)
    ensures r.Ok? <==> 0 <= slaveAddress < 0x100 && 0 <= txSize < 0x100 && 0 <= rxLength < 0x100 && IsU16(delayMs)
    ensures r.Err? ==> r.error == StructError
    ensures r.Ok? ==> |r.value| == 5 && r.value[0] == slaveAddress && r.value[1] == txSize &&
                      r.value[2] == rxLength && ReadU16(r.value[3..5]) == delayMs
  {
    if 0 <= slaveAddress < 0x100 && 0 <= txSize < 0x100 && 0 <= rxLength < 0x100 && IsU16(delayMs)
    then Ok([slaveAddress, txSize, rxLength] + U16(delayMs))
    else Err(StructError)
  }

  /** The outer payload: header followed by the bytes to write. */
  function EnvelopePayload(slaveAddress: int, txData: Option<Bytes>, rxLength: Option<int>, readDelay: real): (r: Result<Bytes>)
    ensures r.Err? ==> r.error == StructError
    ensures r.Ok? ==>
              var tx := TxBytes(txData);
              |r.value| == 5 + |tx| && r.value[5..] == tx &&
              r.value[0] == slaveAddress && r.value[1] == |tx| && r.value[2] == RxLength(rxLength) &&
              ReadU16(r.value[3..5]) == DelayMilliseconds(readDelay)
  {
    var tx := TxBytes(txData);
    match PackEnvelopeHeader(slaveAddress, |tx|, RxLength(rxLength), DelayMilliseconds(readDelay))
    case Err(e) => Err(e)
    case Ok(header) => Ok(header + tx)
  }

  /** How the cable reads an envelope back; None for a payload that is not one. */
  function ParseEnvelope(payload: Bytes): Option<Envelope>
  {
    if |payload| < 5 || payload[1] != |payload| - 5 then None
    else Some(Envelope(payload[0], payload[5..], payload[2], ReadU16(payload[3..5])))
  }

  /** What the passthrough returns: nothing when no read was asked for or no
      reply came, the reply untouched otherwise. */
  function PassthroughResult(reply: Option<Bytes>, rxLength: int): (r: Bytes)
    ensures reply.None? || rxLength == 0 ==> r == []
    ensures reply.Some? && rxLength != 0 ==> r == reply.value
  {
    if reply.None? || rxLength == 0 then [] else reply.value
  }

  /** The envelope is built exactly when every header field fits, and the
      cable reads back the address, the bytes to write, the read length and
      the truncated delay. */
  lemma EnvelopeRoundTrip(slaveAddress: int, txData: Option<Bytes>, rxLength: Option<int>, readDelay: real)
    ensures EnvelopePayload(slaveAddress, txData, rxLength, readDelay).Ok? <==>
              0 <= slaveAddress < 0x100 && |TxBytes(txData)| < 0x100 && 0 <= RxLength(rxLength) < 0x100 &&
              IsU16(DelayMilliseconds(readDelay))
    ensures EnvelopePayload(slaveAddress, txData, rxLength, readDelay).Ok? ==>
              var p := EnvelopePayload(slaveAddress, txData, rxLength, readDelay).value;
              |p| == 5 + |TxBytes(txData)| &&
              ParseEnvelope(p) ==
                Some(Envelope(slaveAddress, TxBytes(txData), RxLength(rxLength), DelayMilliseconds(readDelay)))
  {
    var tx := TxBytes(txData);
    var h := PackEnvelopeHeader(slaveAddress, |tx|, RxLength(rxLength), DelayMilliseconds(readDelay));
    if h.Ok? {
      var p := h.value + tx;
      assert p[3..5] == h.value[3..5];
      assert p[5..] == tx;
    }
  }

  /** Every well-formed envelope is one the encoder builds, from a delay of
      exactly its millisecond count. */
  lemma ParsedEnvelopeIsBuilt(payload: Bytes)
    requires ParseEnvelope(payload).Some?
    ensures var e := ParseEnvelope(payload).value;
            EnvelopePayload(e.slaveAddress, Some(e.txData), Some(e.rxLength), e.delayMs as real / 1000.0) == Ok(payload)
  {
    var e := ParseEnvelope(payload).value;
    var d := e.delayMs as real / 1000.0;
    assert d * 1000.0 == e.delayMs as real;
    assert DelayMilliseconds(d) == e.delayMs;
    assert U16(e.delayMs) == payload[3..5];
    assert |e.txData| == payload[1] && IsU16(e.delayMs);
    assert [payload[0], payload[1], payload[2]] + payload[3..5] == payload[..5];
    assert PackEnvelopeHeader(e.slaveAddress, |e.txData|, e.rxLength, e.delayMs) == Ok(payload[..5]);
    assert payload == payload[..5] + payload[5..];
  }

  /** The delay is truncated, not rounded: 1.9 ms is sent as 1. */
  lemma DelayIsTruncated()
    ensures DelayMilliseconds(0.0019) == 1
    ensures DelayMilliseconds(0.0) == 0
  {
  }

  class Scc1I2cTransceiver {
    const device: Scc1ShdlcDevice

    constructor (device: Scc1ShdlcDevice)
      ensures this.device == device
    {
      this.device := device;
    }

    /** One I2C transaction through the cable. */
    method Transceive(slaveAddress: int, txData: Option<Bytes>, rxLength: Option<int>, readDelay: real, timeout: real)
      returns (r: Result<Bytes>)
      modifies device.link
      ensures EnvelopePayload(slaveAddress, txData, rxLength, readDelay).Err? ==>
                r == Err(StructError) && unchanged(device.link)
      ensures EnvelopePayload(slaveAddress, txData, rxLength, readDelay).Ok? ==>
                device.Exchanged(Request(I2cPassthroughCommand, EnvelopePayload(slaveAddress, txData, rxLength, readDelay).value,
                                         EffectiveTimeout(timeout))) &&
                r == Ok(PassthroughResult(Some(old(device.Reply())), RxLength(rxLength)))
    {
      var tx: Bytes := [];
      if txData.Some? {
        tx := txData.value;
      }
      var rx := 0;
      if rxLength.Some? {
        rx := rxLength.value;
      }
      var header := PackEnvelopeHeader(slaveAddress, |tx|, rx, DelayMilliseconds(readDelay));
      if header.Err? {
        return Err(header.error);
      }
      var cmdData := header.value;
      cmdData := cmdData + tx;
      var result := device.Transceive(I2cPassthroughCommand, cmdData, timeout);
      r := Ok(PassthroughResult(Some(result), rx));
    }

    /** The I2cTransceiver protocol's entry point: run the request with the
        default timeout and let the request interpret the raw bytes. */
    method Execute<R>(slaveAddress: int, rxTx: RxTx, interpretResponse: Bytes -> R) returns (r: Result<R>)
      modifies device.link
      ensures EnvelopePayload(slaveAddress, rxTx.txData, rxTx.rxLength, rxTx.readDelay).Err? ==>
                r == Err(StructError) && unchanged(device.link)
      ensures EnvelopePayload(slaveAddress, rxTx.txData, rxTx.rxLength, rxTx.readDelay).Ok? ==>
                device.Exchanged(Request(I2cPassthroughCommand,
                                         EnvelopePayload(slaveAddress, rxTx.txData, rxTx.rxLength, rxTx.readDelay).value,
                                         DefaultI2cTimeout)) &&
                r == Ok(interpretResponse(PassthroughResult(Some(old(device.Reply())), RxLength(rxTx.rxLength))))
    {
      var data := Transceive(slaveAddress, rxTx.txData, rxTx.rxLength, rxTx.readDelay, DefaultI2cTimeout);
      match data
      case Err(e) => r := Err(e);
      case Ok(bytes) => r := Ok(interpretResponse(bytes));
    }
  }

  /** The cable's `get_i2c_transceiver`: a passthrough transceiver bound to `device`. */
  method GetI2cTransceiver(device: Scc1ShdlcDevice) returns (transceiver: Scc1I2cTransceiver)
    ensures fresh(transceiver) && transceiver.device == device
  {
    transceiver := new Scc1I2cTransceiver(device);
  }
}
