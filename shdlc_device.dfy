/** The SCC1 sensor cable as an SHDLC device: the generic `transceive`
    (default timeout, empty-reply normalisation) and the configuration
    commands built on it (sensor type, sensor I2C address, bus scan, reset). */
module ShdlcDevice {
  import opened Scc1Types
  import opened ShdlcLink

  /** Seconds used when a caller passes a timeout of zero or less. */
  const DefaultTimeout: real := 3.0

  const SensorTypeCommand := 0x24
  const SensorAddressCommand := 0x25
  const I2cScanCommand := 0x29
  const SensorResetCommand := 0x66

  /** Sensor types the cable knows (0: SF04 flow, 1: SHTxx humidity, 2: SF05 flow, 3: SF06 flow, 4: reserved). */
  predicate IsSensorType(t: int) { 0 <= t < 5 }

  /** Seven-bit I2C addresses. */
  predicate IsI2cAddress(a: int) { 0 <= a < 128 }

  /** The timeout handed to the link: a non-positive request means the default. */
  function EffectiveTimeout(timeout: real): (t: real)
    ensures t > 0.0
    ensures timeout > 0.0 ==> t == timeout
    ensures timeout <= 0.0 ==> t == DefaultTimeout
  {
    if timeout <= 0.0 then DefaultTimeout else timeout
  }

  /** `transceive` never answers "no data" with None: a falsy link result becomes b''. */
  function NormalizeReply(reply: Option<Bytes>): (r: Bytes)
    ensures r == [] <==> reply.None? || reply.value == []
    ensures reply.Some? ==> r == reply.value
  {
    match reply
    case None => []
    case Some(data) => data
  }

  /** The reply of a single-byte getter: nothing for an empty reply, the
      unsigned byte for a one-byte reply, struct.error for any other length. */
  function DecodeOptionalByte(reply: Bytes): (r: Result<Option<int>>)
    ensures r == Ok(None) <==> reply == []
    ensures r.Err? <==> |reply| > 1
    ensures r.Err? ==> r.error == StructError
    ensures r.Ok? && r.value.Some? ==> 0 <= r.value.value < 0x100 && reply == [r.value.value]
  {
    if reply == [] then Ok(None)
    else if |reply| == 1 then Ok(Some(reply[0] as int))
    else Err(StructError)
  }

  /** The bus-scan reply read as one address per byte, no count prefix. */
  function ScanAddresses(reply: Bytes): (addresses: seq<int>)
    ensures |addresses| == |reply|
    ensures forall i :: 0 <= i < |reply| ==> addresses[i] == reply[i] as int && 0 <= addresses[i] < 0x100
  {
    seq(|reply|, i requires 0 <= i < |reply| => reply[i] as int)
  }

  class Scc1ShdlcDevice {
    const link: ScriptedLink
    /** The sensor type last read from or written to the cable. */
    var sensorType: Option<int>
    /** The sensor I2C address last read from or written to the cable. */
    var i2cAddress: Option<int>
    /** The addresses found by the last `FindChips`. */
    var connectedI2cAddresses: seq<int>

    constructor Init(link: ScriptedLink, sensorType: Option<int>, i2cAddress: Option<int>)
      ensures this.link == link && this.sensorType == sensorType && this.i2cAddress == i2cAddress
      ensures connectedI2cAddresses == []
    {
      this.link := link;
      this.sensorType := sensorType;
      this.i2cAddress := i2cAddress;
      connectedI2cAddresses := [];
    }

    /** The cable's construction: read the sensor type, then the sensor
        address, and start with no known I2C devices. */
    static method Open(link: ScriptedLink) returns (r: Result<Scc1ShdlcDevice>)
      modifies link
      ensures var first := DecodeOptionalByte(NormalizeReply(NextReply(old(link.script))));
              var second := DecodeOptionalByte(NormalizeReply(NextReply(RestOf(old(link.script)))));
              match first
              case Err(e) =>
                r == Err(e) && link.log == old(link.log) + [Request(SensorTypeCommand, [], 0.025)] &&
                link.script == RestOf(old(link.script))
              case Ok(t) =>
                link.log == old(link.log) + [Request(SensorTypeCommand, [], 0.025), Request(SensorAddressCommand, [], 0.025)] &&
                link.script == RestOf(RestOf(old(link.script))) &&
                match second
                case Err(e) => r == Err(e)
                case Ok(a) =>
                  r.Ok? && fresh(r.value) && r.value.link == link &&
                  r.value.sensorType == t && r.value.i2cAddress == a && r.value.connectedI2cAddresses == []
    {
      var device := new Scc1ShdlcDevice.Init(link, None, None);
      var t := device.GetSensorType();
      if t.Err? {
        return Err(t.error);
      }
      var a := device.GetSensorAddress();
      if a.Err? {
        return Err(a.error);
      }
      device.sensorType := t.value;
      device.i2cAddress := a.value;
      r := Ok(device);
    }

    /** The reply the next exchange will give, already normalised. */
    function Reply(): Bytes
      reads link
    {
      NormalizeReply(link.Peek())
    }

    /** Exactly one exchange, of `request`, happened on the link. */
    twostate predicate Exchanged(request: Request)
      reads link
    {
      link.log == old(link.log) + [request] && link.script == RestOf(old(link.script))
    }

    /** The generic command: one exchange with the normalised timeout,
        whose reply comes back normalised. */
    method Transceive(command: int, data: Bytes, timeout: real) returns (r: Bytes)
      modifies link
      ensures Exchanged(Request(command, data, EffectiveTimeout(timeout)))
      ensures r == old(Reply())
    {
      var t := timeout;
      if t <= 0.0 {
        t := DefaultTimeout;
      }
      var result := link.Execute(Request(command, data, t));
      if result.None? || result.value == [] {
        return [];
      }
      r := result.value;
    }

    method PerformI2cScan() returns (addresses: seq<int>)
      modifies link
      ensures Exchanged(Request(I2cScanCommand, [0x01], 0.025))
      ensures addresses == ScanAddresses(old(Reply()))
    {
      var result := Transceive(I2cScanCommand, [0x01], 0.025);
      addresses := ScanAddresses(result);
    }

    method FindChips() returns (addresses: seq<int>)
      modifies this, link
      ensures Exchanged(Request(I2cScanCommand, [0x01], 0.025))
      ensures addresses == ScanAddresses(old(Reply())) && connectedI2cAddresses == addresses
      ensures sensorType == old(sensorType) && i2cAddress == old(i2cAddress)
    {
      connectedI2cAddresses := PerformI2cScan();
      addresses := connectedI2cAddresses;
    }

    method GetSensorType() returns (r: Result<Option<int>>)
      modifies link
      ensures Exchanged(Request(SensorTypeCommand, [], 0.025))
      ensures r == DecodeOptionalByte(old(Reply()))
    {
      var result := Transceive(SensorTypeCommand, [], 0.025);
      r := DecodeOptionalByte(result);
    }

    method SetSensorType(sensorType: int) returns (r: Outcome)
      modifies this, link
      ensures !IsSensorType(sensorType) ==> r == Fail(ValueError) && unchanged(this) && unchanged(link)
      ensures IsSensorType(sensorType) ==>
                r == Pass && Exchanged(Request(SensorTypeCommand, [sensorType], 0.01)) &&
                this.sensorType == Some(sensorType)
      ensures i2cAddress == old(i2cAddress) && connectedI2cAddresses == old(connectedI2cAddresses)
    {
      if !IsSensorType(sensorType) {
        return Fail(ValueError);
      }
      var _ := Transceive(SensorTypeCommand, [sensorType], 0.01);
      this.sensorType := Some(sensorType);
      r := Pass;
    }

    method GetSensorAddress() returns (r: Result<Option<int>>)
      modifies link
      ensures Exchanged(Request(SensorAddressCommand, [], 0.025))
      ensures r == DecodeOptionalByte(old(Reply()))
    {
      var result := Transceive(SensorAddressCommand, [], 0.025);
      r := DecodeOptionalByte(result);
    }

    method SetSensorAddress(address: int) returns (r: Outcome)
      modifies this, link
      ensures !IsI2cAddress(address) ==> r == Fail(ValueError) && unchanged(this) && unchanged(link)
      ensures IsI2cAddress(address) ==>
                r == Pass && Exchanged(Request(SensorAddressCommand, [address], 0.01)) &&
                i2cAddress == Some(address)
      ensures sensorType == old(sensorType) && connectedI2cAddresses == old(connectedI2cAddresses)
    {
      if !IsI2cAddress(address) {
        return Fail(ValueError);
      }
      var _ := Transceive(SensorAddressCommand, [address], 0.01);
      i2cAddress := Some(address);
      r := Pass;
    }

    method SensorReset()
      modifies link
      ensures Exchanged(Request(SensorResetCommand, [], 0.3))
    {
      var _ := Transceive(SensorResetCommand, [], 0.3);
    }
  }
}
