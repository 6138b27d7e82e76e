/** The byte layouts of the SLF3x driver's requests and replies: start
    payload, flow unit and scale, last measurement, the extended buffer and
    the identification string. */
module Slf3xCodec {
  import opened Scc1Types
  import opened BigEndian

  /** One sample: flow, temperature and flags. */
  datatype Measurement = Measurement(flow: int, temperature: int, flags: int)

  /** One read of the extended buffer, in the order the driver returns it. */
  datatype ExtendedBuffer = ExtendedBuffer(bytesRemaining: int, bytesLost: int, records: seq<seq<int>>)

  datatype Identification = Identification(serialNumber: int, productId: int)

  // ---------------------------------------------------------------------------
  // Start payload, flow unit and scale, last measurement

  /** The payload of "start continuous measurement": the interval then the
      sensor command, each packed '>H'; the interval may be out of range. */
  function StartPayload(intervalMs: int, command: int): (r: Result<Bytes>)
    requires IsU16(command)
    ensures r.Ok? <==> IsU16(intervalMs)
    ensures r.Err? ==> r.error == StructError
    ensures r.Ok? ==> |r.value| == 4 && ReadU16(r.value[..2]) == intervalMs && ReadU16(r.value[2..]) == command
  {
    match PackU16(intervalMs)
    case Err(e) => Err(e)
    case Ok(interval) =>
      var data := interval + U16(command);
      assert data[..2] == interval && data[2..] == U16(command);
      Ok(data)
  }

  /** struct.unpack('>HHH') of a six-byte reply, keeping (scale, unit);
      any other length means the product does not support the query. */
  function DecodeFlowUnitAndScale(reply: Bytes): (r: Option<(int, int)>)
    ensures r.Some? <==> |reply| == 6
    ensures r.Some? ==> IsU16(r.value.0) && IsU16(r.value.1) &&
                        reply[..4] == U16(r.value.0) + U16(r.value.1)
  {
    if |reply| != 6 then None
    else
      assert reply[..4] == reply[..2] + reply[2..4];
      Some((ReadU16(reply[..2]), ReadU16(reply[2..4])))
  }

  /** A six-byte reply whatever its third field: the decoder returns its first two fields. */
  lemma FlowUnitAndScaleRoundTrip(scale: int, unit: int, reserved: int)
    requires IsU16(scale) && IsU16(unit) && IsU16(reserved)
    ensures DecodeFlowUnitAndScale(U16(scale) + U16(unit) + U16(reserved)) == Some((scale, unit))
  {
    var reply := U16(scale) + U16(unit) + U16(reserved);
    assert reply[..2] == U16(scale) && reply[2..4] == U16(unit);
  }

  /** struct.pack('>hhH') of a sample. */
  function EncodeMeasurement(m: Measurement): (b: Bytes)
    requires IsI16(m.flow) && IsI16(m.temperature) && IsU16(m.flags)
    ensures |b| == 6
  {
    I16(m.flow) + I16(m.temperature) + U16(m.flags)
  }

  /** The last-measurement reply: nothing when empty (not ready yet),
      '>hhH' when six bytes, struct.error for any other length. */
  function DecodeLastMeasurement(reply: Bytes): (r: Result<Option<Measurement>>)
    ensures r == Ok(None) <==> reply == []
    ensures r.Err? <==> reply != [] && |reply| != 6
    ensures r.Err? ==> r.error == StructError
    ensures r.Ok? && r.value.Some? ==>
              var m := r.value.value;
              IsI16(m.flow) && IsI16(m.temperature) && IsU16(m.flags) && EncodeMeasurement(m) == reply
  {
    if reply == [] then Ok(None)
    else if |reply| != 6 then Err(StructError)
    else
      var m := Measurement(ReadI16(reply[..2]), ReadI16(reply[2..4]), ReadU16(reply[4..]));
      ReadI16RoundTrip(reply[..2]);
      ReadI16RoundTrip(reply[2..4]);
      assert reply == reply[..2] + reply[2..4] + reply[4..];
      Ok(Some(m))
  }

  /** Every sample survives encoding and decoding. */
  lemma LastMeasurementRoundTrip(m: Measurement)
    requires IsI16(m.flow) && IsI16(m.temperature) && IsU16(m.flags)
    ensures DecodeLastMeasurement(EncodeMeasurement(m)) == Ok(Some(m))
  {
    var b := EncodeMeasurement(m);
    assert b[..2] == I16(m.flow) && b[2..4] == I16(m.temperature) && b[4..] == U16(m.flags);
    I16RoundTrip(m.flow);
    I16RoundTrip(m.temperature);
  }

  // ---------------------------------------------------------------------------
  // Extended buffer

  lemma MulAtLeast(a: int, n: int)
    requires a >= 1 && n > 0
    ensures a * n >= n
  {
  }

  lemma MulMonotone(a: int, b: int, c: int)
    requires a > 0 && b <= c
    ensures a * b <= a * c
  {
  }

  /** Euclidean division has one quotient and one remainder. */
  lemma DivModUnique(m: int, n: int, q: int, r: int)
    requires n > 0 && 0 <= r < n && m == q * n + r
    ensures m / n == q && m % n == r
  {
    var q', r' := m / n, m % n;
    assert m == q' * n + r';
    if q > q' {
      MulAtLeast(q - q', n);
      assert false;
    } else if q < q' {
      MulAtLeast(q' - q, n);
      assert false;
    }
  }

  /** Taking one record off a whole number of records leaves a whole number. */
  lemma DivStep(m: int, n: int)
    requires n > 0 && m > 0 && m % n == 0
    ensures m >= n && (m - n) % n == 0 && (m - n) / n == m / n - 1
  {
    var q := m / n;
    assert m == q * n;
    if q <= 0 {
      MulAtLeast(-q + 1, n);
      assert false;
    }
    MulAtLeast(q, n);
    DivModUnique(m - n, n, q - 1, 0);
  }

  /** The flat value sequence cut into consecutive records of `n` values. */
  function Partition(values: seq<int>, n: int): (records: seq<seq<int>>)
    requires n > 0 && |values| % n == 0
    ensures |records| == |values| / n
    ensures forall i :: 0 <= i < |records| ==> |records[i]| == n
    decreases |values|
  {
    if values == [] then []
    else
      DivStep(|values|, n);
      [values[..n]] + Partition(values[n..], n)
  }

  /** The records concatenated in order. */
  function Flatten(records: seq<seq<int>>): seq<int>
  {
    if records == [] then [] else records[0] + Flatten(records[1..])
  }

  /** Record i holds values i*n up to i*n+n, as the driver's comprehension slices them. */
  lemma {:induction false} PartitionAt(values: seq<int>, n: int, i: int)
    requires n > 0 && |values| % n == 0 && 0 <= i < |values| / n
    ensures 0 <= i * n && i * n + n <= |values|
    ensures Partition(values, n)[i] == values[i * n..i * n + n]
    decreases i
  {
    DivStep(|values|, n);
    if i > 0 {
      PartitionAt(values[n..], n, i - 1);
      assert (i - 1) * n + n == i * n;
      assert values[n..][(i - 1) * n..(i - 1) * n + n] == values[i * n..i * n + n];
    }
  }

  /** Concatenating the records gives back the flat sequence. */
  lemma {:induction false} FlattenPartition(values: seq<int>, n: int)
    requires n > 0 && |values| % n == 0
    ensures Flatten(Partition(values, n)) == values
    decreases |values|
  {
    if values != [] {
      DivStep(|values|, n);
      FlattenPartition(values[n..], n);
      assert Partition(values, n)[1..] == Partition(values[n..], n);
    }
  }

  /** Records of `n` values each are recovered by partitioning their concatenation. */
  lemma {:induction false} PartitionFlatten(records: seq<seq<int>>, n: int)
    requires n > 0 && forall i :: 0 <= i < |records| ==> |records[i]| == n
    ensures |Flatten(records)| == |records| * n && |Flatten(records)| % n == 0
    ensures Partition(Flatten(records), n) == records
  {
    if records != [] {
      var rest := records[1..];
      PartitionFlatten(rest, n);
      var flat := Flatten(records);
      assert flat == records[0] + Flatten(rest);
      assert |records| * n == |rest| * n + n;
      DivModUnique(|flat|, n, |records|, 0);
      assert flat[..n] == records[0] && flat[n..] == Flatten(rest);
    }
  }

  /** read_extended_buffer's decoding: header u32 lost, u16 remaining, u16
      signal count, then records of i16 values.  The count of whole records
      is computed as if every record were six bytes ("hhh"), as written. */
  function DecodeExtendedBuffer(data: Bytes): (r: Result<ExtendedBuffer>)
    ensures |data| < 8 ==> r == Err(StructError)
    ensures |data| >= 8 && ReadU16(data[6..8]) == 0 ==> r == Err(ZeroDivision)
    ensures r.Ok? ==>
              |data| >= 8 && |data[8..]| % 2 == 0 &&
              r.value.bytesLost == ReadU32(data[..4]) && r.value.bytesRemaining == ReadU16(data[4..6]) &&
              (forall i :: 0 <= i < |r.value.records| ==> |r.value.records[i]| == ReadU16(data[6..8])) &&
              Flatten(r.value.records) == ReadI16s(data[8..])
  {
    if |data| < 8 then Err(StructError)
    else
      var bytesLost := ReadU32(data[..4]);
      var bytesRemaining := ReadU16(data[4..6]);
      var numSignals := ReadU16(data[6..8]);
      if numSignals == 0 then Err(ZeroDivision)
      else
        var payload := data[8..];
        var numPackets := |payload| / 2 / numSignals;
        // unpack(">" + "hhh" * numPackets) needs exactly 6 * numPackets bytes
        if |payload| % 6 != 0 || |payload| / 6 != numPackets then Err(StructError)
        else
          var values := ReadI16s(payload);
          if |values| % numSignals != 0 then Err(InvalidDataReceived)
          else
            FlattenPartition(values, numSignals);
            Ok(ExtendedBuffer(bytesRemaining, bytesLost, Partition(values, numSignals)))
  }

  /** The header a buffer read is framed with, then its values. */
  function EncodeExtendedBuffer(bytesRemaining: int, bytesLost: int, numSignals: int, records: seq<seq<int>>): (data: Bytes)
    requires IsU16(bytesRemaining) && 0 <= bytesLost < 0x1_0000_0000 && IsU16(numSignals)
    requires forall i, j :: 0 <= i < |records| && 0 <= j < |records[i]| ==> IsI16(records[i][j])
    ensures |data| >= 8
  {
    FlattenInRange(records);
    U32(bytesLost) + U16(bytesRemaining) + U16(numSignals) + I16s(Flatten(records))
  }

  lemma {:induction false} FlattenInRange(records: seq<seq<int>>)
    requires forall i, j :: 0 <= i < |records| && 0 <= j < |records[i]| ==> IsI16(records[i][j])
    ensures forall k :: 0 <= k < |Flatten(records)| ==> IsI16(Flatten(records)[k])
  {
    if records != [] {
      FlattenInRange(records[1..]);
      assert forall k :: 0 <= k < |records[0]| ==> Flatten(records)[k] == records[0][k];
      assert forall k :: |records[0]| <= k < |Flatten(records)| ==>
        Flatten(records)[k] == Flatten(records[1..])[k - |records[0]|];
    }
  }

  /** Any read of three-value records (flow, temperature, flags) decodes back
      to the counters and records it was encoded from. */
  lemma ExtendedBufferRoundTrip(bytesRemaining: int, bytesLost: int, records: seq<seq<int>>)
    requires IsU16(bytesRemaining) && 0 <= bytesLost < 0x1_0000_0000
    requires forall i :: 0 <= i < |records| ==> |records[i]| == 3
    requires forall i, j :: 0 <= i < |records| && 0 <= j < |records[i]| ==> IsI16(records[i][j])
    ensures DecodeExtendedBuffer(EncodeExtendedBuffer(bytesRemaining, bytesLost, 3, records)) ==
              Ok(ExtendedBuffer(bytesRemaining, bytesLost, records))
  {
    var data := EncodeExtendedBuffer(bytesRemaining, bytesLost, 3, records);
    var flat := Flatten(records);
    FlattenInRange(records);
    PartitionFlatten(records, 3);
    assert data[..4] == U32(bytesLost);
    assert data[4..6] == U16(bytesRemaining);
    assert data[6..8] == U16(3);
    assert data[8..] == I16s(flat);
    ReadI16sOfI16s(flat);
    assert |data[8..]| == 6 * |records|;
  }

  /** As written, a non-empty data region decodes only when each record has
      exactly three values: the "hhh" format fixes six bytes per record. */
  lemma ExtendedBufferOnlyThreeSignals(data: Bytes)
    requires DecodeExtendedBuffer(data).Ok? && |data| > 8
    ensures ReadU16(data[6..8]) == 3
  {
    var ns := ReadU16(data[6..8]);
    var payload := data[8..];
    var np := |payload| / 2 / ns;
    assert |payload| == 6 * np && |ReadI16s(payload)| % ns == 0;
    DivModUnique(|payload|, 2, 3 * np, 0);
    OnlyThreeDivides(np, ns);
  }

  /** If ns divides 3*np exactly np times, ns is 3. */
  lemma OnlyThreeDivides(np: int, ns: int)
    requires np > 0 && ns > 0 && (3 * np) / ns == np && (3 * np) % ns == 0
    ensures ns == 3
  {
    assert 3 * np == np * ns;
    if ns >= 4 {
      MulMonotone(np, 4, ns);
      assert false;
    } else if ns <= 2 {
      MulMonotone(np, ns, 2);
      assert false;
    }
  }

  /** With three signals the decoder fails on exactly the data regions that
      are not a whole number of six-byte records. */
  lemma ExtendedBufferThreeSignals(data: Bytes)
    requires |data| >= 8 && ReadU16(data[6..8]) == 3
    ensures DecodeExtendedBuffer(data).Ok? <==> (|data| - 8) % 6 == 0
    ensures (|data| - 8) % 6 != 0 ==> DecodeExtendedBuffer(data) == Err(StructError)
  {
  }

  /** Every outcome of the decoder once the header is there and names at
      least one signal: success only for an empty data region or for three
      signals over whole six-byte packets; InvalidDataReceived only for two
      signals over one packet; struct.error for everything else. */
  lemma ExtendedBufferOutcome(data: Bytes)
    requires |data| >= 8 && ReadU16(data[6..8]) > 0
    ensures var size, ns := |data| - 8, ReadU16(data[6..8]);
            (DecodeExtendedBuffer(data).Ok? <==> size == 0 || (ns == 3 && size % 6 == 0)) &&
            (DecodeExtendedBuffer(data) == Err(InvalidDataReceived) <==> ns == 2 && size == 6) &&
            (DecodeExtendedBuffer(data).Err? && !(ns == 2 && size == 6) ==> DecodeExtendedBuffer(data) == Err(StructError))
  {
    ExtendedBufferBranches(data);
    PacketArithmetic(|data| - 8, ReadU16(data[6..8]));
  }

  /** The decoder's branches, read off the data-region size alone. */
  lemma ExtendedBufferBranches(data: Bytes)
    requires |data| >= 8 && ReadU16(data[6..8]) > 0
    ensures var size, ns := |data| - 8, ReadU16(data[6..8]);
            var unpacks := size % 6 == 0 && size / 6 == size / 2 / ns;
            (DecodeExtendedBuffer(data).Ok? <==> unpacks && (size / 2) % ns == 0) &&
            (DecodeExtendedBuffer(data) == Err(InvalidDataReceived) <==> unpacks && (size / 2) % ns != 0) &&
            (!unpacks ==> DecodeExtendedBuffer(data) == Err(StructError))
  {
  }

  /** Which sizes pass the "hhh" unpack and the divisibility check, for `ns` signals. */
  lemma PacketArithmetic(size: int, ns: int)
    requires size >= 0 && ns > 0
    ensures var unpacks := size % 6 == 0 && size / 6 == size / 2 / ns;
            (unpacks && (size / 2) % ns == 0 <==> size == 0 || (ns == 3 && size % 6 == 0)) &&
            (unpacks && (size / 2) % ns != 0 <==> ns == 2 && size == 6)
  {
    var np := size / 2 / ns;
    if ns == 1 {
      assert np == size / 2;
    } else if ns == 2 {
      assert np == size / 4;
    } else if ns >= 4 && size > 0 {
      FewPackets(size, ns);
    }
  }

  /** With four or more signals, six bytes per packet never fill a non-empty region. */
  lemma FewPackets(size: int, ns: int)
    requires size > 0 && ns >= 4
    ensures 6 * (size / 2 / ns) < size
  {
    var q := size / 2 / ns;
    assert q * ns <= size / 2;
    if q > 0 {
      MulMonotone(q, 4, ns);
    }
  }

  /** The decoder as evidently intended: each packet holds `num_signals`
      values ("h" * num_signals per packet) rather than always three.  The
      divisibility check is kept and can then never fail. */
  function DecodeExtendedBufferAllSignals(data: Bytes): (r: Result<ExtendedBuffer>)
    ensures |data| < 8 ==> r == Err(StructError)
    ensures |data| >= 8 && ReadU16(data[6..8]) == 0 ==> r == Err(ZeroDivision)
    ensures r != Err(InvalidDataReceived)
    ensures r.Ok? ==>
              |data| >= 8 && |data[8..]| % 2 == 0 &&
              r.value.bytesLost == ReadU32(data[..4]) && r.value.bytesRemaining == ReadU16(data[4..6]) &&
              (forall i :: 0 <= i < |r.value.records| ==> |r.value.records[i]| == ReadU16(data[6..8])) &&
              Flatten(r.value.records) == ReadI16s(data[8..])
  {
    if |data| < 8 then Err(StructError)
    else
      var bytesLost := ReadU32(data[..4]);
      var bytesRemaining := ReadU16(data[4..6]);
      var numSignals := ReadU16(data[6..8]);
      if numSignals == 0 then Err(ZeroDivision)
      else
        var payload := data[8..];
        var numPackets := |payload| / 2 / numSignals;
        if |payload| != 2 * (numPackets * numSignals) then Err(StructError)
        else
          var values := ReadI16s(payload);
          DivModUnique(numPackets * numSignals, numSignals, numPackets, 0);
          if |values| % numSignals != 0 then Err(InvalidDataReceived)
          else
            FlattenPartition(values, numSignals);
            Ok(ExtendedBuffer(bytesRemaining, bytesLost, Partition(values, numSignals)))
  }

  /** With `num_signals` values per packet, every buffer decodes back to the
      counters and records it was encoded from, whatever the signal count. */
  lemma ExtendedBufferAllSignalsRoundTrip(bytesRemaining: int, bytesLost: int, numSignals: int, records: seq<seq<int>>)
    requires IsU16(bytesRemaining) && 0 <= bytesLost < 0x1_0000_0000 && IsU16(numSignals) && numSignals > 0
    requires forall i :: 0 <= i < |records| ==> |records[i]| == numSignals
    requires forall i, j :: 0 <= i < |records| && 0 <= j < |records[i]| ==> IsI16(records[i][j])
    ensures DecodeExtendedBufferAllSignals(EncodeExtendedBuffer(bytesRemaining, bytesLost, numSignals, records)) ==
              Ok(ExtendedBuffer(bytesRemaining, bytesLost, records))
  {
    var data := EncodeExtendedBuffer(bytesRemaining, bytesLost, numSignals, records);
    var flat := Flatten(records);
    FlattenInRange(records);
    PartitionFlatten(records, numSignals);
    assert data[..4] == U32(bytesLost);
    assert data[4..6] == U16(bytesRemaining);
    assert data[6..8] == U16(numSignals);
    assert data[8..] == I16s(flat);
    ReadI16sOfI16s(flat);
    DivModUnique(|flat|, numSignals, |records|, 0);
    assert |data[8..]| / 2 / numSignals == |records|;
  }

  /** Two packets of two signals: the code as written rejects them with
      struct.error, the intended decoder returns both records. */
  lemma TwoSignalBuffer(records: seq<seq<int>>)
    requires records == [[1, 2], [3, 4]]
    ensures forall i, j :: 0 <= i < |records| && 0 <= j < |records[i]| ==> IsI16(records[i][j])
    ensures DecodeExtendedBuffer(EncodeExtendedBuffer(0, 0, 2, records)) == Err(StructError)
    ensures DecodeExtendedBufferAllSignals(EncodeExtendedBuffer(0, 0, 2, records)) == Ok(ExtendedBuffer(0, 0, records))
  {
    var data := EncodeExtendedBuffer(0, 0, 2, records);
    ExtendedBufferAllSignalsRoundTrip(0, 0, 2, records);
    assert Flatten(records[1..][1..]) == [];
    assert |Flatten(records)| == 4;
    assert data[6..8] == U16(2);
    ExtendedBufferOutcome(data);
  }

  /** A data region the "hhh" unpack accepts but that is no whole number of
      records is reported as invalid data: two signals, three values. */
  lemma ExtendedBufferMalformed()
    ensures DecodeExtendedBuffer([0, 0, 0, 0, 0, 0, 0, 2, 0, 1, 0, 2, 0, 3]) == Err(InvalidDataReceived)
  {
    var data: Bytes := [0, 0, 0, 0, 0, 0, 0, 2, 0, 1, 0, 2, 0, 3];
    assert data[6..8] == [0, 2];
    assert |ReadI16s(data[8..])| == 3;
  }

  /** Nothing lost, nothing remaining, two records (100, 200, 0) and (110, 210, 0). */
  lemma ExtendedBufferExample()
    ensures DecodeExtendedBuffer([0, 0, 0, 0, 0, 0, 0, 3, 0, 100, 0, 200, 0, 0, 0, 110, 0, 210, 0, 0]) ==
              Ok(ExtendedBuffer(0, 0, [[100, 200, 0], [110, 210, 0]]))
  {
    var records := [[100, 200, 0], [110, 210, 0]];
    ExtendedBufferRoundTrip(0, 0, records);
    ExampleEncoding(records);
  }

  lemma ExampleEncoding(records: seq<seq<int>>)
    requires records == [[100, 200, 0], [110, 210, 0]]
    ensures forall i, j :: 0 <= i < |records| && 0 <= j < |records[i]| ==> IsI16(records[i][j])
    ensures EncodeExtendedBuffer(0, 0, 3, records) ==
              [0, 0, 0, 0, 0, 0, 0, 3, 0, 100, 0, 200, 0, 0, 0, 110, 0, 210, 0, 0]
  {
    ExampleFlatten(records);
    ExampleValuesPacked(Flatten(records));
    assert U32(0) == [0, 0, 0, 0] && U16(0) == [0, 0] && U16(3) == [0, 3];
  }

  lemma ExampleFlatten(records: seq<seq<int>>)
    requires records == [[100, 200, 0], [110, 210, 0]]
    ensures Flatten(records) == [100, 200, 0, 110, 210, 0]
  {
    assert Flatten(records[1..][1..]) == [];
    assert Flatten(records[1..]) == [110, 210, 0];
  }

  lemma ExampleValuesPacked(flat: seq<int>)
    requires flat == [100, 200, 0, 110, 210, 0]
    ensures I16s(flat) == [0, 100, 0, 200, 0, 0, 0, 110, 0, 210, 0, 0]
  {
    assert I16s(flat[5..]) == [0, 0];
    assert I16s(flat[4..]) == [0, 210] + I16s(flat[5..]);
    assert I16s(flat[3..]) == [0, 110] + I16s(flat[4..]);
    assert I16s(flat[2..]) == [0, 0] + I16s(flat[3..]);
    assert I16s(flat[1..]) == [0, 200] + I16s(flat[2..]);
    assert I16s(flat) == [0, 100] + I16s(flat[1..]);
  }

  // ---------------------------------------------------------------------------
  // Identification

  /** bytes.rstrip(b'\x00'). */
  function StripTrailingNuls(b: Bytes): (s: Bytes)
    ensures |s| <= |b| && s == b[..|s|]
    ensures s == [] || s[|s| - 1] != 0
    ensures forall i :: |s| <= i < |b| ==> b[i] == 0
  {
    if b == [] || b[|b| - 1] != 0 then b else StripTrailingNuls(b[..|b| - 1])
  }

  /** The value of one ASCII hex digit, either case. */
  function HexDigitValue(c: Byte): Option<int>
  {
    if '0' as int <= c <= '9' as int then Some(c - '0' as int)
    else if 'A' as int <= c <= 'F' as int then Some(c - 'A' as int + 10)
    else if 'a' as int <= c <= 'f' as int then Some(c - 'a' as int + 10)
    else None
  }

  predicate IsHexDigits(s: Bytes)
  {
    forall i :: 0 <= i < |s| ==> HexDigitValue(s[i]).Some?
  }

  function Pow16(n: nat): (p: nat)
    ensures p > 0
  {
    if n == 0 then 1 else 16 * Pow16(n - 1)
  }

  /** The number the hex digits spell, most significant first. */
  function HexValue(s: Bytes): (n: int)
    requires IsHexDigits(s)
    ensures 0 <= n < Pow16(|s|)
  {
    if s == [] then 0
    else
      var d := HexDigitValue(s[|s| - 1]).value;
      assert 0 <= d < 16;
      HexValue(s[..|s| - 1]) * 16 + d
  }

  /** int(s, 16) on ASCII: fails on an empty string or a non-hex character. */
  function ParseHex(s: Bytes): (r: Result<int>)
    ensures r.Ok? <==> s != [] && IsHexDigits(s)
    ensures r.Err? ==> r.error == ValueError
    ensures r.Ok? ==> 0 <= r.value < Pow16(|s|)
  {
    if s != [] && IsHexDigits(s) then Ok(HexValue(s)) else Err(ValueError)
  }

  /** The upper-case hex digit of 0..15. */
  function HexDigit(d: int): (c: Byte)
    requires 0 <= d < 16
    ensures HexDigitValue(c) == Some(d)
  {
    if d < 10 then '0' as int + d else 'A' as int + d - 10
  }

  /** `n` written with exactly `width` upper-case hex digits. */
  function HexDigits(n: int, width: nat): (s: Bytes)
    requires 0 <= n
    ensures |s| == width && IsHexDigits(s)
    ensures forall i :: 0 <= i < |s| ==> s[i] != 0
  {
    if width == 0 then []
    else HexDigits(n / 16, width - 1) + [HexDigit(n % 16)]
  }

  /** Hex digits parse back to the number they were written from. */
  lemma {:induction false} HexValueOfHexDigits(n: int, width: nat)
    requires 0 <= n < Pow16(width)
    ensures HexValue(HexDigits(n, width)) == n
  {
    if width > 0 {
      var s := HexDigits(n, width);
      assert s[..|s| - 1] == HexDigits(n / 16, width - 1);
      HexValueOfHexDigits(n / 16, width - 1);
    }
  }

  /** The identification reply: trailing NULs stripped, the first eight
      characters the product id, the rest the serial number, both hex. */
  function ParseIdentification(reply: Bytes): (r: Result<Identification>)
    ensures var text := StripTrailingNuls(reply);
            r.Ok? <==> |text| > 8 && IsHexDigits(text)
    ensures r.Ok? ==>
              var text := StripTrailingNuls(reply);
              r.value == Identification(HexValue(text[8..]), HexValue(text[..8]))
    ensures r.Ok? ==> 0 <= r.value.productId < Pow16(8) && 0 <= r.value.serialNumber
    ensures r.Err? ==> r.error == ValueError
  {
    var text := StripTrailingNuls(reply);
    assert |text| >= 8 ==> (IsHexDigits(text) <==> IsHexDigits(text[..8]) && IsHexDigits(text[8..])) by {
      if |text| >= 8 {
        HexDigitsSplit(text, 8);
      }
    }
    var head := if |text| < 8 then text else text[..8];
    var tail := if |text| < 8 then [] else text[8..];
    match ParseHex(head)
    case Err(e) => Err(e)
    case Ok(productId) =>
      match ParseHex(tail)
      case Err(e) => Err(e)
      case Ok(serialNumber) => Ok(Identification(serialNumber, productId))
  }

  /** A text is all hex digits exactly when both sides of a cut are. */
  lemma HexDigitsSplit(text: Bytes, k: int)
    requires 0 <= k <= |text|
    ensures IsHexDigits(text) <==> IsHexDigits(text[..k]) && IsHexDigits(text[k..])
  {
    if IsHexDigits(text[..k]) && IsHexDigits(text[k..]) {
      forall i | 0 <= i < |text|
        ensures HexDigitValue(text[i]).Some?
      {
        if i < k {
          assert text[i] == text[..k][i];
        } else {
          assert text[i] == text[k..][i - k];
        }
      }
    }
  }

  /** `n` zero bytes of padding. */
  function Nuls(n: nat): (b: Bytes)
    ensures |b| == n && forall i :: 0 <= i < n ==> b[i] == 0
  {
    seq(n, i => 0)
  }

  lemma {:induction false} StripPadding(text: Bytes, padding: nat)
    requires text != [] && text[|text| - 1] != 0
    ensures StripTrailingNuls(text + Nuls(padding)) == text
    decreases padding
  {
    if padding > 0 {
      assert (text + Nuls(padding))[..|text| + padding - 1] == text + Nuls(padding - 1);
      StripPadding(text, padding - 1);
    } else {
      assert text + Nuls(0) == text;
    }
  }

  /** A product id in eight hex digits, a serial number in any positive
      number of hex digits and any NUL padding parse back to both numbers. */
  lemma IdentificationRoundTrip(productId: int, serialNumber: int, width: nat, padding: nat)
    requires 0 <= productId < Pow16(8) && 0 < width && 0 <= serialNumber < Pow16(width)
    ensures ParseIdentification(HexDigits(productId, 8) + HexDigits(serialNumber, width) + Nuls(padding)) ==
              Ok(Identification(serialNumber, productId))
  {
    var text := HexDigits(productId, 8) + HexDigits(serialNumber, width);
    StripPadding(text, padding);
    assert text[..8] == HexDigits(productId, 8) && text[8..] == HexDigits(serialNumber, width);
    HexValueOfHexDigits(productId, 8);
    HexValueOfHexDigits(serialNumber, width);
  }

  /** ASCII text as bytes. */
  function Ascii(s: string): (b: Bytes)
    requires forall i :: 0 <= i < |s| ==> s[i] as int < 0x80
    ensures |b| == |s|
  {
    seq(|s|, i requires 0 <= i < |s| => s[i] as int)
  }

  /** "00070302000004D2" is product 0x070302 with serial number 0x4D2. */
  lemma IdentificationExample()
    ensures ParseIdentification(Ascii("00070302000004D2")) == Ok(Identification(0x4D2, 0x070302))
  {
    var text := Ascii("00070302000004D2");
    assert text == [48, 48, 48, 55, 48, 51, 48, 50, 48, 48, 48, 48, 48, 52, 68, 50];
    assert StripTrailingNuls(text) == text;
    ExampleProductId(text[..8]);
    ExampleSerialNumber(text[8..]);
  }

  lemma ExampleProductId(head: Bytes)
    requires head == [48, 48, 48, 55, 48, 51, 48, 50]
    ensures ParseHex(head) == Ok(0x070302)
  {
    assert IsHexDigits(head);
    assert HexValue(head[..1]) == 0x0;
    assert head[..2][..1] == head[..1];
    assert HexValue(head[..2]) == 0x00;
    assert head[..3][..2] == head[..2];
    assert HexValue(head[..3]) == 0x000;
    assert head[..4][..3] == head[..3];
    assert HexValue(head[..4]) == 0x0007;
    assert head[..5][..4] == head[..4];
    assert HexValue(head[..5]) == 0x00070;
    assert head[..6][..5] == head[..5];
    assert HexValue(head[..6]) == 0x000703;
    assert head[..7][..6] == head[..6];
    assert HexValue(head[..7]) == 0x0007030;
    assert HexValue(head) == 0x00070302;
  }

  lemma ExampleSerialNumber(tail: Bytes)
    requires tail == [48, 48, 48, 48, 48, 52, 68, 50]
    ensures ParseHex(tail) == Ok(0x4D2)
  {
    assert IsHexDigits(tail);
    assert HexValue(tail[..1]) == 0x0;
    assert tail[..2][..1] == tail[..1];
    assert HexValue(tail[..2]) == 0x00;
    assert tail[..3][..2] == tail[..2];
    assert HexValue(tail[..3]) == 0x000;
    assert tail[..4][..3] == tail[..3];
    assert HexValue(tail[..4]) == 0x0000;
    assert tail[..5][..4] == tail[..4];
    assert HexValue(tail[..5]) == 0x00000;
    assert tail[..6][..5] == tail[..5];
    assert HexValue(tail[..6]) == 0x000004;
    assert tail[..7][..6] == tail[..6];
    assert HexValue(tail[..7]) == 0x00004D;
    assert HexValue(tail) == 0x000004D2;
  }
}
