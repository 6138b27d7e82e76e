/** The SLF3x liquid-flow sensor driver on the SCC1 cable: identification at
    construction, the liquid mode and its measurement command, the
    measuring/idle state machine, and the measurement queries. */
module Slf3x {
  import opened Scc1Types
  import opened BigEndian
  import opened ShdlcLink
  import opened ShdlcDevice
  import opened SlfCommon
  import opened Slf3xCodec

  /** The sensor-type tag the cable expects for SF06-based sensors. */
  const SensorType := 3

  const StartMeasurementCommand := 0x33
  const StopMeasurementCommand := 0x34
  const LastMeasurementCommand := 0x35
  const ExtendedBufferCommand := 0x36
  const IdentificationCommand := 0x50
  const FlowUnitAndScaleCommand := 0x53

  /** Timeout of every driver command, in seconds. */
  const CommandTimeout: real := 0.01

  const DefaultSamplingIntervalMs := 100

  /** A value offered to the liquid-mode setter: a liquid mode, or anything else. */
  datatype ModeValue = IsMode(mode: SlfMode) | NotAMode

  /** The driver always reads names from the SLF3x liquid table. */
  function DriverLiquiConfig(): LiquiConfig
  {
    ProductLiquiConfig(Slf3x)
  }

  /** The name of a liquid mode, KeyError for a mode the SLF3x table lacks. */
  function GetLiquidModeName(mode: SlfMode): (r: Result<string>)
    ensures r.Ok? <==> mode == Liqui1 || mode == Liqui2
    ensures r.Err? ==> r.error == KeyError
  {
    ProductLiquids(mode);
    LiquiModeName(DriverLiquiConfig(), mode)
  }

  class Scc1Slf3x {
    const device: Scc1ShdlcDevice
    const serialNumber: int
    const productId: int
    var isMeasuring: bool
    var samplingIntervalMs: int
    var liquidMode: SlfMode
    /** The sensor command of the active liquid mode. */
    var measurementCommand: int

    /** The measurement command always belongs to the stored liquid mode. */
    ghost predicate Valid()
      reads this
    {
      measurementCommand == MeasurementCommand(liquidMode)
    }

    constructor Init(device: Scc1ShdlcDevice, liquidMode: SlfMode, id: Identification)
      ensures Valid()
      ensures this.device == device && serialNumber == id.serialNumber && productId == id.productId
      ensures !isMeasuring && samplingIntervalMs == DefaultSamplingIntervalMs && this.liquidMode == liquidMode
    {
      this.device := device;
      serialNumber := id.serialNumber;
      productId := id.productId;
      isMeasuring := false;
      samplingIntervalMs := DefaultSamplingIntervalMs;
      this.liquidMode := liquidMode;
      measurementCommand := MeasurementCommand(liquidMode);
    }

    /** The driver's construction: read and parse the identification, then
        start idle in the given liquid mode. */
    static method Open(device: Scc1ShdlcDevice, liquidMode: SlfMode) returns (r: Result<Scc1Slf3x>)
      modifies device.link
      ensures device.Exchanged(Request(IdentificationCommand, [], CommandTimeout))
      ensures match ParseIdentification(old(device.Reply()))
              case Err(e) => r == Err(e)
              case Ok(id) =>
                r.Ok? && fresh(r.value) && r.value.Valid() && r.value.device == device &&
                r.value.serialNumber == id.serialNumber && r.value.productId == id.productId &&
                !r.value.isMeasuring && r.value.samplingIntervalMs == DefaultSamplingIntervalMs &&
                r.value.liquidMode == liquidMode
    {
      var data := device.Transceive(IdentificationCommand, [], CommandTimeout);
      var id := ParseIdentification(data);
      if id.Err? {
        return Err(id.error);
      }
      var driver := new Scc1Slf3x.Init(device, liquidMode, id.value);
      r := Ok(driver);
    }

    /** The name of the active liquid. */
    function LiquidModeName(): (r: Result<string>)
      reads this
      ensures r.Ok? <==> liquidMode == Liqui1 || liquidMode == Liqui2
      ensures r.Err? ==> r.error == KeyError
    {
      GetLiquidModeName(liquidMode)
    }

    /** The liquid-mode setter: refused for a non-mode value and while
        measuring; otherwise the mode and its command change together. */
    method SetLiquidMode(mode: ModeValue) returns (r: Outcome)
      requires Valid()
      modifies this
      ensures Valid()
      ensures mode.NotAMode? || old(isMeasuring) ==> r == Fail(NotSupported) && unchanged(this)
      ensures mode.IsMode? && !old(isMeasuring) ==>
                r == Pass && liquidMode == mode.mode && measurementCommand == MeasurementCommand(mode.mode)
      ensures isMeasuring == old(isMeasuring) && samplingIntervalMs == old(samplingIntervalMs)
    {
      if mode.NotAMode? {
        return Fail(NotSupported);
      }
      if isMeasuring {
        return Fail(NotSupported);
      }
      liquidMode := mode.mode;
      measurementCommand := MeasurementCommand(liquidMode);
      r := Pass;
    }

    /** The sampling-interval setter.  The stored value is never sent: a
        start sends the interval it is given instead. */
    method SetSamplingIntervalMs(intervalMs: int)
      modifies this
      ensures samplingIntervalMs == intervalMs
      ensures isMeasuring == old(isMeasuring) && liquidMode == old(liquidMode)
      ensures measurementCommand == old(measurementCommand)
    {
      samplingIntervalMs := intervalMs;
    }

    /** Scale factor and unit for `command` (the active measurement command
        by default); None when the reply is not six bytes long. */
    method GetFlowUnitAndScale(command: Option<int>) returns (r: Result<Option<(int, int)>>)
      modifies device.link
      ensures var c := if command.None? then measurementCommand else command.value;
              if IsI16(c) then
                device.Exchanged(Request(FlowUnitAndScaleCommand, I16(c), CommandTimeout)) &&
                r == Ok(DecodeFlowUnitAndScale(old(device.Reply())))
              else
                r == Err(StructError) && unchanged(device.link)
    {
      var c := measurementCommand;
      if command.Some? {
        c := command.value;
      }
      var args := PackI16(c);
      if args.Err? {
        return Err(args.error);
      }
      var data := device.Transceive(FlowUnitAndScaleCommand, args.value, CommandTimeout);
      r := Ok(DecodeFlowUnitAndScale(data));
    }

    /** The newest sample; None while no sample is ready. */
    method GetLastMeasurement() returns (r: Result<Option<Measurement>>)
      modifies device.link
      ensures device.Exchanged(Request(LastMeasurementCommand, [SensorType], CommandTimeout))
      ensures r == DecodeLastMeasurement(old(device.Reply()))
    {
      var data := device.Transceive(LastMeasurementCommand, [SensorType], CommandTimeout);
      r := DecodeLastMeasurement(data);
    }

    /** Start continuous measurement: nothing happens while already
        measuring; otherwise one start request, then the driver is measuring. */
    method StartContinuousMeasurement(intervalMs: int) returns (r: Outcome)
      requires Valid()
      modifies this, device.link
      ensures Valid()
      ensures old(isMeasuring) ==> r == Pass && unchanged(this) && unchanged(device.link)
      ensures !old(isMeasuring) ==>
                match StartPayload(intervalMs, old(measurementCommand))
                case Err(e) => r == Fail(e) && unchanged(this) && unchanged(device.link)
                case Ok(payload) =>
                  r == Pass && isMeasuring && measurementCommand == old(measurementCommand) &&
                  device.Exchanged(Request(StartMeasurementCommand, payload, CommandTimeout))
      ensures liquidMode == old(liquidMode) && samplingIntervalMs == old(samplingIntervalMs)
    {
      if isMeasuring {
        return Pass;
      }
      var data: Bytes := [];
      var interval := PackU16(intervalMs);
      if interval.Err? {
        return Fail(interval.error);
      }
      data := data + interval.value;
      data := data + U16(measurementCommand);
      assert data == U16(intervalMs) + U16(measurementCommand);
      var _ := device.Transceive(StartMeasurementCommand, data, CommandTimeout);
      isMeasuring := true;
      r := Pass;
    }

    /** Start continuous measurement at the stored sampling interval, as the
        interval setter's documentation promises; the code as written never
        reads that interval. */
    method StartAtSamplingInterval() returns (r: Outcome)
      requires Valid()
      modifies this, device.link
      ensures Valid()
      ensures old(isMeasuring) ==> r == Pass && unchanged(this) && unchanged(device.link)
      ensures !old(isMeasuring) && IsU16(old(samplingIntervalMs)) ==>
                r == Pass && isMeasuring &&
                device.Exchanged(Request(StartMeasurementCommand,
                                         U16(old(samplingIntervalMs)) + U16(old(measurementCommand)), CommandTimeout))
      ensures !old(isMeasuring) && !IsU16(old(samplingIntervalMs)) ==>
                r == Fail(StructError) && unchanged(this) && unchanged(device.link)
      ensures liquidMode == old(liquidMode) && samplingIntervalMs == old(samplingIntervalMs)
    {
      r := StartContinuousMeasurement(samplingIntervalMs);
    }

    /** Stop continuous measurement: nothing happens while idle; otherwise
        one stop request, then the driver is idle. */
    method StopContinuousMeasurement()
      requires Valid()
      modifies this, device.link
      ensures Valid()
      ensures !old(isMeasuring) ==> unchanged(this) && unchanged(device.link)
      ensures old(isMeasuring) ==>
                !isMeasuring && device.Exchanged(Request(StopMeasurementCommand, [], CommandTimeout))
      ensures liquidMode == old(liquidMode) && samplingIntervalMs == old(samplingIntervalMs)
    {
      if !isMeasuring {
        return;
      }
      var _ := device.Transceive(StopMeasurementCommand, [], CommandTimeout);
      isMeasuring := false;
    }

    /** Drain the cable's measurement buffer once: (remaining, lost, records). */
    method ReadExtendedBuffer() returns (r: Result<ExtendedBuffer>)
      modifies device.link
      ensures device.Exchanged(Request(ExtendedBufferCommand, [SensorType], CommandTimeout))
      ensures r == DecodeExtendedBuffer(old(device.Reply()))
    {
      var data := device.Transceive(ExtendedBufferCommand, [SensorType], CommandTimeout);
      r := DecodeExtendedBuffer(data);
    }
  }

  /** Start, start again, stop: one start request and one stop request, and
      the driver is back where it began. */
  method StartStartStop(driver: Scc1Slf3x, first: int, second: int)
    requires driver.Valid() && !driver.isMeasuring && IsU16(first)
    modifies driver, driver.device.link
    ensures driver.Valid() && !driver.isMeasuring
    ensures driver.liquidMode == old(driver.liquidMode) && driver.measurementCommand == old(driver.measurementCommand)
    ensures driver.device.link.log ==
              old(driver.device.link.log) +
              [Request(StartMeasurementCommand, U16(first) + U16(driver.measurementCommand), CommandTimeout),
               Request(StopMeasurementCommand, [], CommandTimeout)]
  {
    var _ := driver.StartContinuousMeasurement(first);
    var _ := driver.StartContinuousMeasurement(second);
    driver.StopContinuousMeasurement();
  }

  /** As written: a sampling interval set before a start with the default
      argument is not what reaches the sensor; interval 0 is sent instead. */
  method SetIntervalThenStart(driver: Scc1Slf3x, intervalMs: int)
    requires driver.Valid() && !driver.isMeasuring
    modifies driver, driver.device.link
    ensures driver.Valid() && driver.measurementCommand == old(driver.measurementCommand)
    ensures driver.samplingIntervalMs == intervalMs && driver.isMeasuring
    ensures driver.device.link.log ==
              old(driver.device.link.log) +
              [Request(StartMeasurementCommand, U16(0) + U16(driver.measurementCommand), CommandTimeout)]
  {
    driver.SetSamplingIntervalMs(intervalMs);
    var _ := driver.StartContinuousMeasurement(0);
  }

  /** Corrected: the interval set before the start is the one sent. */
  method SetIntervalThenStartAtSamplingInterval(driver: Scc1Slf3x, intervalMs: int)
    requires driver.Valid() && !driver.isMeasuring && IsU16(intervalMs)
    modifies driver, driver.device.link
    ensures driver.Valid() && driver.measurementCommand == old(driver.measurementCommand)
    ensures driver.samplingIntervalMs == intervalMs && driver.isMeasuring
    ensures driver.device.link.log ==
              old(driver.device.link.log) +
              [Request(StartMeasurementCommand, U16(intervalMs) + U16(driver.measurementCommand), CommandTimeout)]
  {
    driver.SetSamplingIntervalMs(intervalMs);
    var _ := driver.StartAtSamplingInterval();
  }

  /** A mode change while measuring is refused and leaves mode and command as they were. */
  method ModeChangeWhileMeasuring(driver: Scc1Slf3x, intervalMs: int, mode: SlfMode) returns (r: Outcome)
    requires driver.Valid() && IsU16(intervalMs)
    modifies driver, driver.device.link
    ensures r == Fail(NotSupported)
    ensures driver.liquidMode == old(driver.liquidMode) && driver.measurementCommand == old(driver.measurementCommand)
  {
    var _ := driver.StartContinuousMeasurement(intervalMs);
    r := driver.SetLiquidMode(IsMode(mode));
  }
}
