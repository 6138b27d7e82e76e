# SCC1 sensor cable and SLF3x liquid-flow driver

This project models the command layer of the Sensirion SCC1 USB sensor cable and the SLF3x
liquid-flow sensor driver that runs on top of it:

- **The cable (`Scc1ShdlcDevice`).** It wraps the SHDLC link and sends each command with a
  timeout. A timeout of zero or less means the 3 s default. An empty or missing reply becomes
  empty bytes. On top of that sit the cable's configuration commands: sensor type, sensor I2C
  address, I2C bus scan and sensor reset.
- **The I2C passthrough (`Scc1I2cTransceiver`).** It wraps an inner I2C request in a five-byte
  big-endian envelope and sends it as command 0x2A. The envelope holds the slave address, the
  tx length, the rx length and the read delay in milliseconds.
- **The SLF3x driver (`Scc1Slf3x`).** It identifies the sensor when it is created, keeps the
  liquid mode and its 16-bit measurement command together, and runs the idle/measuring state
  machine (start, stop). It also decodes the last measurement, the flow unit and scale, and the
  extended measurement buffer.
- **The SLF tables (`slf_common`).** These are the measurement commands per liquid mode, the
  product-id tables, the per-product liquid names, and the decoder that turns a raw flow-unit
  code into a label such as `ml/min`.

## How it is modelled

- **The SHDLC link.** The transport is `ShdlcLink.ScriptedLink`. It is a class holding the log
  of every request sent (command, payload, timeout) and the queue of replies still to come.
  - The device's `Exchanged(request)` says that exactly one request was appended to the log and
    one reply consumed.
  - Every state-changing method states the whole new state of the objects it modifies, and
    which requests reached the link.
- **Python exceptions.** These become the `Error` datatype, returned in `Result`, or in
  `Outcome` for operations that return nothing.
  - `struct.error` becomes `StructError`.
  - `ZeroDivisionError` becomes `ZeroDivision`.
  - `ValueError` becomes `ValueError`. This includes `int(s, 16)` failures and UTF-8 decoding
    errors, since `UnicodeDecodeError` is a `ValueError`.
  - A missing dictionary key becomes `KeyError`.
  - The cable's own exceptions become `NotSupported`, `InvalidDataReceived` and
    `InvalidProductId`.
- **Construction.** Creating the cable or the driver talks to the hardware and can raise. Both
  are therefore static `Open` factories that return a `Result`.
- **`struct` formats.** These are the functions of `BigEndian`. Each has its own range check
  and round-trip lemmas.
- **Sub-byte masks.** Python's `x & 0xF` and `(x >> n) & 0xF` are Dafny's Euclidean
  `x % 16` and `x / 2^n % 16`, which agree for negative `x` as well.

The model follows the code wherever the code behaves in a way a reader might not expect:

- **Extended-buffer records.** These are decoded as `hhh`: the flags are signed 16-bit.
- **Last measurement.** Its flags are decoded as unsigned 16-bit (`>hhH`).
- **Flow-unit-and-scale argument.** The command argument is packed as a signed 16-bit value
  (`>h`).
- **I2C read delay.** The delay in milliseconds is `int(read_delay * 1000)`, which truncates
  toward zero. It is not rounded.
- **Wrong-length replies.** `get_sensor_type`, `get_sensor_address` and `get_last_measurement`
  raise `struct.error` when the reply is non-empty but has the wrong length.
- **Liquid names.** The SLF3x driver always reads liquid names from the SLF3x table, whatever
  the product. Its liquid-mode setter accepts every `SlfMode`, so after setting `Liqui0` or
  `Liqui3`…`Liqui8` the liquid name is a `KeyError`.
- **Extended-buffer signal count.** The driver computes the packet count from `num_signals` but
  always unpacks three values per packet. As a result, only `num_signals == 3` can decode a
  non-empty data region (`Slf3xCodec.ExtendedBufferOnlyThreeSignals`). The driver's
  `ReadExtendedBuffer` keeps this behaviour; the decoder with `num_signals` values per packet is
  modelled beside it (see Findings).
- **Sampling interval.** The interval setter stores a value that nothing reads: a start sends the
  interval it is given, and Python's default `interval_ms=0` is an explicit argument here. A
  start at the stored interval is modelled beside the code as written (see Findings).

## Model

| member | source | states |
|---|---|---|
| BigEndian.U16 | sensirion_uart_scc1/drivers/scc1_slf3x.py:164-165 | `struct.pack('>H')` of an in-range value is two bytes, high byte first, whose value is the input |
| BigEndian.ReadU16 | sensirion_uart_scc1/drivers/scc1_slf3x.py:185-186 | `unpack('>H')` yields a u16 that re-encodes to exactly the two bytes read |
| BigEndian.I16 | sensirion_uart_scc1/drivers/scc1_slf3x.py:135 | `pack('>h')` is the two's-complement u16 of the value |
| BigEndian.ReadI16 | sensirion_uart_scc1/drivers/scc1_slf3x.py:188 | `unpack('>h')` yields an i16 that is negative exactly when the sign bit of the first byte is set |
| BigEndian.U32 | sensirion_uart_scc1/drivers/scc1_slf3x.py:184 | `pack('>I')` is the high 16-bit half then the low half, together worth the input |
| BigEndian.ReadU32 | sensirion_uart_scc1/drivers/scc1_slf3x.py:184 | `unpack('>I')` yields a u32 that re-encodes to exactly the four bytes read |
| BigEndian.PackU16 | sensirion_uart_scc1/drivers/scc1_slf3x.py:164-165 | `pack('>H')` succeeds exactly for 0..65535 and reads back to the input; otherwise `struct.error` |
| BigEndian.PackI16 | sensirion_uart_scc1/drivers/scc1_slf3x.py:135 | `pack('>h')` succeeds exactly for -32768..32767 and reads back to the input; otherwise `struct.error` |
| BigEndian.I16s | sensirion_uart_scc1/drivers/scc1_slf3x.py:188 | a sequence of i16 values packs to two bytes per value |
| BigEndian.ReadI16s | sensirion_uart_scc1/drivers/scc1_slf3x.py:188 | unpacking `h` repeatedly yields one value per byte pair, the i-th read from bytes 2i and 2i+1 |
| BigEndian.ReadI16sOfI16s | sensirion_uart_scc1/drivers/scc1_slf3x.py:188 | unpacking a packed i16 sequence gives back the sequence |
| BigEndian.I16RoundTrip | sensirion_uart_scc1/drivers/scc1_slf3x.py:135 | an in-range i16 reads back after packing |
| BigEndian.ReadI16RoundTrip | sensirion_uart_scc1/drivers/scc1_slf3x.py:188 | any two bytes re-encode from the i16 they decode to |
| ShdlcLink.RestOf | sensirion_uart_scc1/scc1_shdlc_device.py:133-137 | one exchange consumes exactly the first scripted reply |
| ShdlcLink.ScriptedLink.constructor | sensirion_uart_scc1/protocols/shdlc_transceiver.py:9 | a fresh link has an empty log and the given replies queued |
| ShdlcLink.ScriptedLink.Execute | sensirion_uart_scc1/scc1_shdlc_device.py:133-137 | the request is logged, and the next scripted reply is returned and consumed |
| ShdlcDevice.EffectiveTimeout | sensirion_uart_scc1/scc1_shdlc_device.py:131-132 | the timeout used is always positive: a positive one is kept, any other becomes 3.0 s |
| ShdlcDevice.NormalizeReply | sensirion_uart_scc1/scc1_shdlc_device.py:138-140 | the result is empty exactly when the link gave nothing or empty bytes, and is the link's reply otherwise |
| ShdlcDevice.DecodeOptionalByte | sensirion_uart_scc1/scc1_shdlc_device.py:75-78 | an empty reply means None, a one-byte reply is that byte, any longer reply is `struct.error` |
| ShdlcDevice.ScanAddresses | sensirion_uart_scc1/scc1_shdlc_device.py:61 | one address per reply byte, in order, each 0..255 |
| ShdlcDevice.Scc1ShdlcDevice.Init | sensirion_uart_scc1/scc1_shdlc_device.py:31-33 | stores the link and the sensor type and address; no known I2C devices |
| ShdlcDevice.Scc1ShdlcDevice.Open | sensirion_uart_scc1/scc1_shdlc_device.py:22-33 | reads the sensor type, then the address (0x24 then 0x25, 25 ms each); fails with the first error, leaving the replies after the one that failed; otherwise holds both values and no I2C devices, with two replies consumed |
| ShdlcDevice.Scc1ShdlcDevice.Transceive | sensirion_uart_scc1/scc1_shdlc_device.py:122-140 | exactly one request with the effective timeout reaches the link, and the normalised reply is returned |
| ShdlcDevice.Scc1ShdlcDevice.PerformI2cScan | sensirion_uart_scc1/scc1_shdlc_device.py:55-61 | sends 0x29 with `[0x01]` and a 25 ms timeout, and returns the reply's bytes as addresses |
| ShdlcDevice.Scc1ShdlcDevice.FindChips | sensirion_uart_scc1/scc1_shdlc_device.py:63-69 | scans once, stores the addresses found and returns them; type and address unchanged |
| ShdlcDevice.Scc1ShdlcDevice.GetSensorType | sensirion_uart_scc1/scc1_shdlc_device.py:71-78 | sends 0x24 with no data and a 25 ms timeout, and decodes the reply as an optional byte |
| ShdlcDevice.Scc1ShdlcDevice.SetSensorType | sensirion_uart_scc1/scc1_shdlc_device.py:80-94 | a type outside 0..4 is `ValueError` with nothing sent and nothing changed; otherwise one 0x24 request with the type, and the type is stored |
| ShdlcDevice.Scc1ShdlcDevice.GetSensorAddress | sensirion_uart_scc1/scc1_shdlc_device.py:96-103 | sends 0x25 with no data and a 25 ms timeout, and decodes the reply as an optional byte |
| ShdlcDevice.Scc1ShdlcDevice.SetSensorAddress | sensirion_uart_scc1/scc1_shdlc_device.py:105-113 | an address outside 0..127 is `ValueError` with nothing sent and nothing changed; otherwise one 0x25 request with the address, and the address is stored |
| ShdlcDevice.Scc1ShdlcDevice.SensorReset | sensirion_uart_scc1/scc1_shdlc_device.py:115-120 | exactly one 0x66 request, with no data and a 300 ms timeout |
| I2cTransceiver.DelayMilliseconds | sensirion_uart_scc1/scc1_i2c_transceiver.py:36 | a non-negative delay in seconds becomes the whole milliseconds in it, rounded down; a negative delay never becomes a positive count |
| I2cTransceiver.TxBytes | sensirion_uart_scc1/scc1_i2c_transceiver.py:29-32 | missing tx data is sent as no bytes, present tx data as itself |
| I2cTransceiver.RxLength | sensirion_uart_scc1/scc1_i2c_transceiver.py:33-34 | a missing rx length is sent as 0, a present one as itself |
| I2cTransceiver.EnvelopePayload | sensirion_uart_scc1/scc1_i2c_transceiver.py:29-38 | the only failure is `struct.error`; a built envelope is the slave address, the tx length, the rx length and the delay in milliseconds as `>H`, followed by the tx bytes |
| I2cTransceiver.Truncate | sensirion_uart_scc1/scc1_i2c_transceiver.py:36 | Python's `int()` of a real: the nearest integer toward zero, for both signs |
| I2cTransceiver.PackEnvelopeHeader | sensirion_uart_scc1/scc1_i2c_transceiver.py:36 | `pack('>BBBH')` succeeds exactly when each field fits its width, and gives five bytes holding the fields in order |
| I2cTransceiver.PassthroughResult | sensirion_uart_scc1/scc1_i2c_transceiver.py:40-42 | empty when no reply came or no read was asked for, the reply untouched otherwise |
| I2cTransceiver.EnvelopeRoundTrip | sensirion_uart_scc1/scc1_i2c_transceiver.py:29-38 | the envelope is built exactly when every header field fits; the receiver then reads back the address, the tx bytes, the rx length (None as 0) and the truncated delay |
| I2cTransceiver.ParsedEnvelopeIsBuilt | sensirion_uart_scc1/scc1_i2c_transceiver.py:29-38 | every well-formed envelope is built by the encoder from a delay of its own millisecond count |
| I2cTransceiver.DelayIsTruncated | sensirion_uart_scc1/scc1_i2c_transceiver.py:36 | 1.9 ms is sent as 1 ms: the delay is truncated, not rounded |
| I2cTransceiver.Scc1I2cTransceiver.constructor | sensirion_uart_scc1/scc1_i2c_transceiver.py:16-18 | the transceiver is bound to the given cable |
| I2cTransceiver.Scc1I2cTransceiver.Transceive | sensirion_uart_scc1/scc1_i2c_transceiver.py:25-42 | a header that does not fit is `struct.error` with nothing sent; otherwise one 0x2A request carrying the envelope, and the reply is returned unless no read was asked for |
| I2cTransceiver.Scc1I2cTransceiver.Execute | sensirion_uart_scc1/scc1_i2c_transceiver.py:20-23 | runs the request's transaction with the 10 ms default timeout and returns the request's interpretation of the result |
| I2cTransceiver.GetI2cTransceiver | sensirion_uart_scc1/scc1_shdlc_device.py:142-150 | a new passthrough transceiver bound to this cable |
| SlfCommon.MeasurementCommand | sensirion_uart_scc1/drivers/slf_common.py:26-41 | every liquid mode has a command, within 0x3603..0x3646 |
| SlfCommon.ModeOfCommandInverse | sensirion_uart_scc1/drivers/slf_common.py:27-37 | the reverse lookup finds a mode exactly for that mode's command |
| SlfCommon.MeasurementCommandInjective | sensirion_uart_scc1/drivers/slf_common.py:27-37 | different liquid modes have different commands |
| SlfCommon.FromProductId | sensirion_uart_scc1/drivers/slf_common.py:58-73 | SLF3x exactly for ids 0x070302..0x070305, LD20 exactly for 0x070102 and 0x070103, `InvalidProductId(id)` for every other id |
| SlfCommon.ProductTablesDisjoint | sensirion_uart_scc1/drivers/slf_common.py:44-56 | no product id belongs to both families |
| SlfCommon.FromProduct | sensirion_uart_scc1/drivers/slf_common.py:76-83 | the product name is never empty |
| SlfCommon.ProductNameOfId | sensirion_uart_scc1/drivers/slf_common.py:76-83 | an id of the family gets its table name; any other id gets the family name |
| SlfCommon.SupportedLiquiModes | sensirion_uart_scc1/drivers/slf_common.py:93-97 | the supported modes are the configured modes, in order |
| SlfCommon.LiquiModeName | sensirion_uart_scc1/drivers/slf_common.py:99-100 | a name is found exactly for a supported mode, and it is that mode's configured name; otherwise `KeyError` |
| SlfCommon.LiquiModeNameOfEntry | sensirion_uart_scc1/drivers/slf_common.py:86-100 | with distinct modes, every configured entry is found by its own mode |
| SlfCommon.ProductLiquiConfig | sensirion_uart_scc1/drivers/slf_common.py:103-111 | each product's liquid table has distinct modes |
| SlfCommon.ProductLiquids | sensirion_uart_scc1/drivers/slf_common.py:103-111 | SLF3x supports Water (Liqui1) and Isopropyl alcohol (Liqui2), LD20 only Water; every other mode is `KeyError` |
| SlfCommon.Lookup | sensirion_uart_scc1/drivers/slf_common.py:146-148 | `dict.get(key, "")`: the table's text for a known key, empty otherwise |
| SlfCommon.PrefixOf | sensirion_uart_scc1/drivers/slf_common.py:146 | the prefix text of bits 0-3 of the code, empty for an unknown nibble |
| SlfCommon.TimeBaseOf | sensirion_uart_scc1/drivers/slf_common.py:147 | the time-base text of bits 4-7 of the code, empty for an unknown nibble |
| SlfCommon.VolumeOf | sensirion_uart_scc1/drivers/slf_common.py:148 | the volume text of bits 8-11 of the code, empty for an unknown nibble |
| SlfCommon.FlowUnitLabel | sensirion_uart_scc1/drivers/slf_common.py:145-149 | the label of every integer code contains a slash |
| SlfCommon.CountConcat | sensirion_uart_scc1/drivers/slf_common.py:149 | occurrences of a character add up over concatenation |
| SlfCommon.NoSlashInTables | sensirion_uart_scc1/drivers/slf_common.py:113-142 | no prefix, time-base or volume text contains a slash |
| SlfCommon.FlowUnitLabelOneSlash | sensirion_uart_scc1/drivers/slf_common.py:145-149 | every label contains exactly one slash |
| SlfCommon.SplitAtSlashOf | sensirion_uart_scc1/drivers/slf_common.py:149 | splitting at the first slash recovers both halves of a text joined with one slash |
| SlfCommon.FlowUnitLabelSplit | sensirion_uart_scc1/drivers/slf_common.py:145-149 | a label splits back into prefix+volume before the slash and time base after it |
| SlfCommon.FlowUnitLabelLow12Bits | sensirion_uart_scc1/drivers/slf_common.py:145-148 | only the low twelve bits of the code matter |
| SlfCommon.FlowUnitLabelExamples | sensirion_uart_scc1/drivers/slf_common.py:113-149 | 0x838 is "l/s", unknown fields give "/", bit 12 is ignored |
| Slf3xCodec.StartPayload | sensirion_uart_scc1/drivers/scc1_slf3x.py:163-165 | the start payload exists exactly for a u16 interval, is four bytes, and reads back as interval then command |
| Slf3xCodec.DecodeFlowUnitAndScale | sensirion_uart_scc1/drivers/scc1_slf3x.py:137-140 | a result exactly for a six-byte reply: the first two u16 fields, scale then unit |
| Slf3xCodec.FlowUnitAndScaleRoundTrip | sensirion_uart_scc1/drivers/scc1_slf3x.py:137-140 | scale and unit come back from their encoding, whatever the reserved field |
| Slf3xCodec.EncodeMeasurement | sensirion_uart_scc1/drivers/scc1_slf3x.py:153 | a measurement is six bytes |
| Slf3xCodec.DecodeLastMeasurement | sensirion_uart_scc1/drivers/scc1_slf3x.py:149-153 | empty means not ready; a non-empty reply of any length but six is `struct.error`; a six-byte reply is the encoding of the measurement returned |
| Slf3xCodec.LastMeasurementRoundTrip | sensirion_uart_scc1/drivers/scc1_slf3x.py:153 | every in-range measurement decodes from its encoding |
| Slf3xCodec.Partition | sensirion_uart_scc1/drivers/scc1_slf3x.py:192-195 | a flat sequence is cut into length/n records of n values each |
| Slf3xCodec.PartitionAt | sensirion_uart_scc1/drivers/scc1_slf3x.py:194-195 | record i is the values from i*n to i*n+n |
| Slf3xCodec.FlattenPartition | sensirion_uart_scc1/drivers/scc1_slf3x.py:192-195 | joining the records again gives the flat values back |
| Slf3xCodec.PartitionFlatten | sensirion_uart_scc1/drivers/scc1_slf3x.py:192-195 | records of equal length n come back from partitioning their concatenation |
| Slf3xCodec.DecodeExtendedBuffer | sensirion_uart_scc1/drivers/scc1_slf3x.py:183-196 | under eight bytes is `struct.error`; zero signals is `ZeroDivisionError`; every other failure is `struct.error` or `InvalidDataReceived`; a success holds the header fields and records of `num_signals` values that join back to the data region |
| Slf3xCodec.EncodeExtendedBuffer | sensirion_uart_scc1/drivers/scc1_slf3x.py:184-188 | a buffer is an eight-byte header followed by its values |
| Slf3xCodec.FlattenInRange | sensirion_uart_scc1/drivers/scc1_slf3x.py:188 | flattening i16 records keeps every value in i16 range |
| Slf3xCodec.ExtendedBufferRoundTrip | sensirion_uart_scc1/drivers/scc1_slf3x.py:183-196 | every buffer of three-value records decodes from its encoding to its header fields and records |
| Slf3xCodec.ExtendedBufferOnlyThreeSignals | sensirion_uart_scc1/drivers/scc1_slf3x.py:186-191 | a non-empty data region decodes only if the header says three signals |
| Slf3xCodec.ExtendedBufferThreeSignals | sensirion_uart_scc1/drivers/scc1_slf3x.py:186-191 | with three signals, decoding succeeds exactly when the data region is whole packets of six bytes, and is `struct.error` otherwise |
| Slf3xCodec.ExtendedBufferOutcome | sensirion_uart_scc1/drivers/scc1_slf3x.py:186-191 | with a header naming at least one signal: success exactly for an empty data region or three signals over whole six-byte packets; `InvalidDataReceived` exactly for two signals over six bytes; `struct.error` in every other case |
| Slf3xCodec.ExtendedBufferBranches | sensirion_uart_scc1/drivers/scc1_slf3x.py:186-191 | the decoder's outcome depends only on whether the `hhh` unpack fits the packet count and whether the value count divides by the signals |
| Slf3xCodec.PacketArithmetic | sensirion_uart_scc1/drivers/scc1_slf3x.py:186-191 | the data-region sizes and signal counts for which the `hhh` unpack and the divisibility check pass |
| Slf3xCodec.DecodeExtendedBufferAllSignals | sensirion_uart_scc1/drivers/scc1_slf3x.py:183-196 | with `num_signals` values per packet: the same header errors, never `InvalidDataReceived`, and a success holds the header fields and records of `num_signals` values that join back to the data region |
| Slf3xCodec.ExtendedBufferAllSignalsRoundTrip | sensirion_uart_scc1/drivers/scc1_slf3x.py:183-196 | with `num_signals` values per packet, every buffer of any positive signal count decodes from its encoding to its header fields and records |
| Slf3xCodec.TwoSignalBuffer | sensirion_uart_scc1/drivers/scc1_slf3x.py:187-191 | two packets of two signals are `struct.error` for the code as written and decode to both records with `num_signals` values per packet |
| Slf3xCodec.ExtendedBufferMalformed | sensirion_uart_scc1/drivers/scc1_slf3x.py:189-191 | two signals with three values is `InvalidDataReceived` |
| Slf3xCodec.ExtendedBufferExample | sensirion_uart_scc1/drivers/scc1_slf3x.py:183-196 | a two-packet buffer decodes to its two (flow, temperature, flags) records |
| Slf3xCodec.StripTrailingNuls | sensirion_uart_scc1/drivers/scc1_slf3x.py:203 | `rstrip(b'\x00')` is the longest prefix not ending in NUL, with only NULs after it |
| Slf3xCodec.HexValue | sensirion_uart_scc1/drivers/scc1_slf3x.py:204-205 | the value of k hex digits is below 16^k |
| Slf3xCodec.ParseHex | sensirion_uart_scc1/drivers/scc1_slf3x.py:204-205 | `int(s, 16)` succeeds exactly for non-empty hex digit strings, otherwise `ValueError` |
| Slf3xCodec.HexDigits | sensirion_uart_scc1/drivers/scc1_slf3x.py:204-205 | a fixed-width hex rendering made of hex digits and no NULs |
| Slf3xCodec.HexValueOfHexDigits | sensirion_uart_scc1/drivers/scc1_slf3x.py:204-205 | a value below 16^width reads back from its width-digit rendering |
| Slf3xCodec.ParseIdentification | sensirion_uart_scc1/drivers/scc1_slf3x.py:198-206 | succeeds exactly when the text left after stripping NULs is more than eight hex digits; the product id is the value of the first eight, the serial number the value of the rest; every failure is `ValueError` |
| Slf3xCodec.HexDigitsSplit | sensirion_uart_scc1/drivers/scc1_slf3x.py:204-205 | a text is hex digits exactly when both parts of any split of it are |
| Slf3xCodec.StripPadding | sensirion_uart_scc1/drivers/scc1_slf3x.py:203 | trailing NUL padding is removed and nothing else |
| Slf3xCodec.IdentificationRoundTrip | sensirion_uart_scc1/drivers/scc1_slf3x.py:198-206 | eight hex digits of product id, the serial number's hex digits and any NUL padding parse back to both numbers |
| Slf3xCodec.IdentificationExample | sensirion_uart_scc1/drivers/scc1_slf3x.py:198-206 | "00070302000004D2" is product 0x070302, serial 1234 |
| Slf3x.GetLiquidModeName | sensirion_uart_scc1/drivers/scc1_slf3x.py:88-95 | a name exactly for Liqui1 and Liqui2 (the SLF3x table), otherwise `KeyError` |
| Slf3x.Scc1Slf3x.LiquidModeName | sensirion_uart_scc1/drivers/scc1_slf3x.py:79-86 | the current mode has a name exactly when it is Liqui1 or Liqui2; otherwise `KeyError` |
| Slf3x.Scc1Slf3x.Init | sensirion_uart_scc1/drivers/scc1_slf3x.py:30-36 | idle, 100 ms sampling, the given mode and its command |
| Slf3x.Scc1Slf3x.Open | sensirion_uart_scc1/drivers/scc1_slf3x.py:23-36 | one 0x50 identification request; a parse error is returned, otherwise an idle driver with 100 ms sampling, whose command matches its mode and which holds the parsed serial number and product id |
| Slf3x.Scc1Slf3x.SetLiquidMode | sensirion_uart_scc1/drivers/scc1_slf3x.py:63-77 | a non-mode value, or any change while measuring, is `NotSupported` with nothing changed; otherwise the mode and its command change together |
| Slf3x.Scc1Slf3x.SetSamplingIntervalMs | sensirion_uart_scc1/drivers/scc1_slf3x.py:106-114 | stores the interval and changes nothing else; nothing sent later depends on it (`Slf3x.SetIntervalThenStart`) |
| Slf3x.Scc1Slf3x.GetFlowUnitAndScale | sensirion_uart_scc1/drivers/scc1_slf3x.py:124-140 | sends 0x53 with the given command, or the active command, as `>h`; a command out of i16 range is `struct.error` with nothing sent |
| Slf3x.Scc1Slf3x.GetLastMeasurement | sensirion_uart_scc1/drivers/scc1_slf3x.py:142-153 | sends 0x35 with sensor type 3 and decodes the reply |
| Slf3x.Scc1Slf3x.StartContinuousMeasurement | sensirion_uart_scc1/drivers/scc1_slf3x.py:155-168 | while measuring, nothing is sent or changed; a bad interval is `struct.error` with nothing sent; otherwise one 0x33 request with the start payload, then measuring |
| Slf3x.Scc1Slf3x.StartAtSamplingInterval | sensirion_uart_scc1/drivers/scc1_slf3x.py:106-114 | while measuring, nothing is sent or changed; otherwise one 0x33 request carrying the stored interval and the command, then measuring; a stored interval out of u16 range is `struct.error` with nothing sent |
| Slf3x.Scc1Slf3x.StopContinuousMeasurement | sensirion_uart_scc1/drivers/scc1_slf3x.py:170-175 | while idle, nothing is sent or changed; otherwise one 0x34 request, then idle |
| Slf3x.Scc1Slf3x.ReadExtendedBuffer | sensirion_uart_scc1/drivers/scc1_slf3x.py:177-196 | sends 0x36 with sensor type 3 and decodes the reply as an extended buffer |
| Slf3x.StartStartStop | sensirion_uart_scc1/drivers/scc1_slf3x.py:155-175 | start, start, stop sends exactly one start and one stop request and ends idle in the same mode |
| Slf3x.SetIntervalThenStart | sensirion_uart_scc1/drivers/scc1_slf3x.py:106-114 | setting an interval and then starting with the default argument stores the interval but sends interval 0 |
| Slf3x.SetIntervalThenStartAtSamplingInterval | sensirion_uart_scc1/drivers/scc1_slf3x.py:106-114 | setting a u16 interval and then starting at the stored interval sends that interval |
| Slf3x.ModeChangeWhileMeasuring | sensirion_uart_scc1/drivers/scc1_slf3x.py:63-77 | after a start, a mode change is refused and mode and command stay as they were |

## Findings

| source | as written | input that shows it | evidently intended | confidence | as-written member | corrected member |
|---|---|---|---|---|---|---|
| sensirion_uart_scc1/drivers/scc1_slf3x.py:187-191 | the packet count is derived from `num_signals`, but every packet is unpacked as `hhh`, three values | a buffer with `num_signals == 2` and two packets (1, 2) and (3, 4): eight data bytes, two packets computed, `unpack` wants twelve bytes and raises `struct.error` | each packet unpacked as `"h" * num_signals`, so any positive signal count decodes (`Slf3xCodec.ExtendedBufferAllSignalsRoundTrip`) | medium, not executed | Slf3xCodec.TwoSignalBuffer | Slf3xCodec.DecodeExtendedBufferAllSignals |
| sensirion_uart_scc1/drivers/scc1_slf3x.py:106-114 | the sampling-interval setter stores a value that `start_continuous_measurement` (lines 155-165) never reads; the start sends its own `interval_ms`, 0 by default | set `sampling_interval_ms = 500`, then call `start_continuous_measurement()`: the start payload carries interval 0 | a start without an explicit interval sends the stored interval, as the setter's documentation says | medium, not executed | Slf3x.SetIntervalThenStart | Slf3x.Scc1Slf3x.StartAtSamplingInterval |

The driver's `ReadExtendedBuffer` and `StartContinuousMeasurement` keep the code as written; the
corrected members sit beside them and the corrected properties are proved about them.

## Left out

- The SHDLC framing, serial port and connection, and the `ShdlcDevice` base class: the link is
  a scripted queue of replies with a request log. Transport failures (timeouts, device errors)
  are not modelled.
- `get_version` and `get_serial_number` in the cable's constructor are foreign calls into the
  base class. They are not modelled, and neither are `serial_number`, `firmware_version`,
  `com_port` and `__str__`.
- `time.sleep` after the start command: the model has no clock.
- Timeouts and read delays are exact reals, not IEEE floats, so float rounding of
  `read_delay * 1000` and of the divisions in `read_extended_buffer` is not modelled.
- Slf3xCodec.ParseHex: accepts only plain hex digits. Python's `int(s, 16)` also accepts
  surrounding whitespace, `_` separators, a sign, a `0x` prefix and non-ASCII digits.
- Slf3xCodec.ParseIdentification: a non-ASCII byte is a `ValueError` as in Python, but valid
  multi-byte UTF-8 text is not decoded.
- Slf3x.Scc1Slf3x.SetLiquidMode: the argument is a `ModeValue`. Python's `isinstance` test
  against arbitrary objects is reduced to mode or not-a-mode.
- Slf3x.Scc1Slf3x.StartContinuousMeasurement: Python's default `interval_ms=0` is not a default
  here; callers pass the interval explicitly.
- Slf3x.Scc1Slf3x.SetSamplingIntervalMs and StartContinuousMeasurement take integers.
  Python's `int(interval_ms)` of a float argument is not modelled.
- The read-only properties (`liquid_mode`, `sampling_interval_ms`, `serial_number`,
  `product_id`, `connected_i2c_addresses`) are plain fields of the classes.
- The `RxTx` and `I2cTransceiver` protocols are typing declarations. `RxTx` is a datatype, and
  `interpret_response` is a function passed to `Execute`.
- Example scripts and tests are not part of this model.
