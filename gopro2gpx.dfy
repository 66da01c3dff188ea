/**
  gopro_binary_to_csv as the code runs it: a record loop that walks a byte
  cursor through the telemetry stream and reassigns the parse state, inner
  loops over the values of each record, and a loop that stamps every sample
  of every stored session. Each method is proved to compute what the
  functions of GpmfReader and Interpolation specify.
 */
module GoPro2Gpx {
  import opened GpmfTypes
  import opened GpmfReader
  import opened Interpolation
  import GpmfProperties

  /** What gopro_binary_to_csv returns for the byte stream `s`: the points, or the error it raises. */
  function BinaryToCsv(s: seq<byte>, parseTime: seq<byte> -> Option<int>): Result<seq<Point>> {
    match ParseFrom(s, 0, Init, parseTime)
    case Err(e) => Err(e)
    case Ok(data) =>
      GpmfProperties.ParseStoresNonEmpty(s, 0, Init, parseTime);
      Ok(Interpolate(data))
  }

  /** The values of a SCAL record: `count` unsigned integers of `valSize` bytes each. */
  method ReadScales(a: array<byte>, valSize: nat, count: nat, st0: ParseState, pos0: nat) returns (r: Result<Cursor>)
    requires pos0 <= a.Length
    ensures r == ScalesFrom(a[..], valSize, count, 0, st0.(scales := []), pos0)
  {
    var scales: seq<nat> := [];
    var pos: nat := pos0;
    for i := 0 to count
      invariant pos <= a.Length
      invariant ScalesFrom(a[..], valSize, count, i, st0.(scales := scales), pos)
             == ScalesFrom(a[..], valSize, count, 0, st0.(scales := []), pos0)
    {
      if valSize == 2 {
        var bytes := a[pos..Advance(a.Length, pos, 2)];
        pos := Advance(a.Length, pos, 2);
        if |bytes| != 2 {
          return Err(StructError);
        }
        scales := scales + [BeUint16(bytes)];
      } else if valSize == 4 {
        var bytes := a[pos..Advance(a.Length, pos, 4)];
        pos := Advance(a.Length, pos, 4);
        if |bytes| != 4 {
          return Err(StructError);
        }
        scales := scales + [BeUint32(bytes)];
      } else {
        return Err(ScaleSizeError(valSize));
      }
    }
    return Ok(Cursor(st0.(scales := scales), pos));
  }

  /** One value of a record that is not SCAL: read it, act on it as the record's tag says, recompute the gate. */
  method ReadValue(
    a: array<byte>, tag: Tag, valSize: nat, dataLength: nat,
    st0: ParseState, pos0: nat, parseTime: seq<byte> -> Option<int>) returns (r: Result<ParseState>, pos: nat)
    requires pos0 <= a.Length
    ensures pos == Advance(a.Length, pos0, PerValue(tag, valSize, dataLength))
    ensures r == ValueStep(a[..], tag, valSize, dataLength, st0, pos0, parseTime)
  {
    var st := st0;
    pos := Advance(a.Length, pos0, PerValue(tag, valSize, dataLength));
    var bytes := a[pos0..pos];
    if tag == Gps5 {
      if valSize != 20 {
        return Err(Gps5SizeError(valSize)), pos;
      }
      if |bytes| != 20 {
        return Err(StructError), pos;
      }
      if st.ok {
        var sample := ScaledSample(bytes, st.scales);
        if sample.Err? {
          return Err(sample.error), pos;
        }
        if st.current.None? {
          return Err(NoSessionError), pos;
        }
        var c := st.current.value;
        st := st.(current := Some(c.(samples := c.samples + [sample.value])));
      }
    } else if tag == Gpsu {
      if st.current.Some? && st.current.value.samples != [] {
        st := st.(sessions := st.sessions + [st.current.value]);
      }
      var t := parseTime(bytes);
      if t.None? {
        return Err(TimestampError), pos;
      }
      st := st.(current := Some(Session(t.value, [])));
    } else if tag == Gpsf {
      if |bytes| != 4 {
        return Err(StructError), pos;
      }
      st := st.(fix := BeUint32(bytes));
    } else if tag == Gpsp {
      if |bytes| != 2 {
        return Err(StructError), pos;
      }
      st := st.(accuracy := BeUint16(bytes));
    }
    // Decide whether to record the samples that follow.
    st := st.(ok := Gate(st.fix, st.accuracy));
    return Ok(st), pos;
  }

  /** The values of a record that is not SCAL, one after another. */
  method ReadValues(
    a: array<byte>, tag: Tag, valSize: nat, dataLength: nat, count: nat,
    st0: ParseState, pos0: nat, parseTime: seq<byte> -> Option<int>) returns (r: Result<Cursor>)
    requires pos0 <= a.Length
    ensures r == ValuesFrom(a[..], tag, valSize, dataLength, count, 0, st0, pos0, parseTime)
  {
    var st: ParseState, pos: nat := st0, pos0;
    for value := 0 to count
      invariant pos <= a.Length
      invariant ValuesFrom(a[..], tag, valSize, dataLength, count, value, st, pos, parseTime)
             == ValuesFrom(a[..], tag, valSize, dataLength, count, 0, st0, pos0, parseTime)
    {
      var step;
      step, pos := ReadValue(a, tag, valSize, dataLength, st, pos, parseTime);
      if step.Err? {
        return Err(step.error);
      }
      st := step.value;
    }
    return Ok(Cursor(st, pos));
  }

  /** The payload of the record whose header is at `at`: a SCAL list, or the values one by one. */
  method ReadPayload(
    a: array<byte>, tag: Tag, valSize: nat, dataLength: nat, count: nat,
    st: ParseState, at: nat, parseTime: seq<byte> -> Option<int>) returns (c: Result<Cursor>)
    requires at + 8 <= a.Length
    requires tag == TagAt(a[..], at) && valSize == ValSizeAt(a[..], at)
    requires count == CountAt(a[..], at) && dataLength == DataLengthAt(a[..], at)
    ensures c == Payload(a[..], at, st, parseTime)
  {
    if tag == Scal {
      c := ReadScales(a, valSize, count, st, at + 8);
    } else {
      c := ReadValues(a, tag, valSize, dataLength, count, st, at + 8, parseTime);
    }
  }

  /** Data is packed to four bytes: the read that skips to the boundary after `dataLength` bytes of payload. */
  method SkipPadding(a: array<byte>, pos: nat, dataLength: nat) returns (next: nat)
    requires pos <= a.Length
    ensures next == Advance(a.Length, pos, PadLength(dataLength))
  {
    next := pos;
    var mod := dataLength % 4;
    if mod != 0 {
      next := Advance(a.Length, pos, 4 - mod);
    }
  }

  /**
    The eight-byte record header at `pos`: a four-byte tag, a type byte, a
    value size byte and a big-endian 16-bit count, and the data length they
    declare.
   */
  method ReadHeader(a: array<byte>, pos: nat) returns (tag: Tag, dataType: byte, valSize: nat, count: nat, dataLength: nat)
    requires pos + 8 <= a.Length
    ensures tag == TagAt(a[..], pos) && dataType == TypeAt(a[..], pos)
    ensures valSize == ValSizeAt(a[..], pos) && count == CountAt(a[..], pos)
    ensures valSize < 0x100 && count < 0x1_0000
    ensures dataLength == DataLengthAt(a[..], pos)
  {
    tag := Classify(a[pos..pos + 4]);
    dataType := a[pos + 4];
    valSize := a[pos + 5] as nat;
    count := a[pos + 6] as nat * 0x100 + a[pos + 7] as nat;
    assert valSize == ValSizeAt(a[..], pos) && count == CountAt(a[..], pos);
    dataLength := valSize * count;
  }

  /** The record loop: the sessions stored when the stream runs out of headers, or the error raised. */
  method ReadSessions(a: array<byte>, parseTime: seq<byte> -> Option<int>) returns (r: Result<seq<Session>>)
    ensures r == ParseFrom(a[..], 0, Init, parseTime)
  {
    var st := Init;
    var pos: nat := 0;
    while true
      invariant pos <= a.Length
      invariant ParseFrom(a[..], pos, st, parseTime) == ParseFrom(a[..], 0, Init, parseTime)
      decreases a.Length - pos
    {
      if a.Length - pos < 8 {
        // Reading the four-byte descriptor fails: the normal end of the stream.
        return Ok(st.sessions);
      }
      ghost var before := st;
      var at := pos;
      var tag, dataType, valSize, count, dataLength := ReadHeader(a, pos);
      pos := pos + 8;
      GpmfProperties.SkippedRecords(a[..], at, before, parseTime);
      if dataType == 0 {
        continue;
      }
      if tag == Empt {
        pos := Advance(a.Length, pos, 4);
        continue;
      }
      var c := ReadPayload(a, tag, valSize, dataLength, count, st, at, parseTime);
      if c.Err? {
        GpmfProperties.RecordStepFail(a[..], at, before, parseTime, c.error);
        return Err(c.error);
      }
      st, pos := c.value.st, c.value.pos;
      pos := SkipPadding(a, pos, dataLength);
      GpmfProperties.RecordStepPayload(a[..], at, before, parseTime, c.value);
    }
  }

  /** The interpolation loop: every sample of every session, stamped, in order. */
  method InterpolateTimestamps(data: seq<Session>) returns (points: seq<Point>)
    requires AllNonEmpty(data)
    ensures points == Interpolate(data)
  {
    points := [];
    for index := 0 to |data|
      invariant points == PointsUpTo(data, index)
    {
      var row := data[index];
      var startTime := row.start;
      var endTime := if index == |data| - 1 then startTime + OneSecond else data[index + 1].start;
      var step := DivRound(endTime - startTime, |row.samples|);
      assert step == StepOf(data, index);
      assert |SessionPoints(data, index)| == |row.samples|;
      for gpsIndex := 0 to |row.samples|
        invariant points == PointsUpTo(data, index) + SessionPoints(data, index)[..gpsIndex]
      {
        assert SessionPoints(data, index)[gpsIndex] == Point(row.samples[gpsIndex], startTime + gpsIndex * step);
        assert SessionPoints(data, index)[..gpsIndex + 1]
            == SessionPoints(data, index)[..gpsIndex] + [SessionPoints(data, index)[gpsIndex]];
        points := points + [Point(row.samples[gpsIndex], startTime + gpsIndex * step)];
      }
      assert SessionPoints(data, index)[..|row.samples|] == SessionPoints(data, index);
    }
  }

  /** gopro_binary_to_csv: the record loop, then the interpolation of the sessions it stored. */
  method GoproBinaryToCsv(a: array<byte>, parseTime: seq<byte> -> Option<int>) returns (r: Result<seq<Point>>)
    ensures r == BinaryToCsv(a[..], parseTime)
  {
    var data := ReadSessions(a, parseTime);
    if data.Err? {
      return Err(data.error);
    }
    GpmfProperties.ParseStoresNonEmpty(a[..], 0, Init, parseTime);
    var points := InterpolateTimestamps(data.value);
    return Ok(points);
  }
}
