/**
  The GPMF record reader and tag interpreter of gopro_binary_to_csv, as
  functions over the whole byte stream and a cursor into it. Each function
  takes the step the code takes: one value of a record (ValueStep), the values
  of a record from the i-th on (ValuesFrom, ScalesFrom), one record with its
  header and padding (RecordStep), and the records from a cursor to the end
  of the stream (ParseFrom). The methods of module GoPro2Gpx are proved equal
  to them; module GpmfProperties proves what they do.
 */
module GpmfReader {
  import opened GpmfTypes

  /** The parse state and the cursor once some bytes have been read. */
  datatype Cursor = Cursor(st: ParseState, pos: nat)

  /** What one trip round the record loop does: stop, go on from a new cursor, or raise. */
  datatype Step = Stop | Next(st: ParseState, pos: nat) | Fail(error: Error)

  /**
    Where the cursor of a stream of `len` bytes stands after a read of `n`
    bytes at `pos`: a read returns fewer bytes only at the end of the stream.
   */
  function Advance(len: nat, pos: nat, n: nat): (r: nat)
    requires pos <= len
    ensures pos <= r <= len
    ensures r - pos == n || (r == len && len - pos < n)
  {
    if pos + n <= len then pos + n else len
  }

  /** Bytes read per value: val_size, except that a GPSU value reads the whole data_length. */
  function PerValue(tag: Tag, valSize: nat, dataLength: nat): nat {
    if tag == Gpsu then dataLength else valSize
  }

  /** Padding bytes read after a payload of `dataLength` bytes. */
  function PadLength(dataLength: nat): nat {
    if dataLength % 4 == 0 then 0 else 4 - dataLength % 4
  }

  // The fields of the eight-byte record header at `pos`.
  function TagAt(s: seq<byte>, pos: nat): Tag
    requires pos + 8 <= |s|
  {
    Classify(s[pos..pos + 4])
  }

  function TypeAt(s: seq<byte>, pos: nat): byte
    requires pos + 8 <= |s|
  {
    s[pos + 4]
  }

  function ValSizeAt(s: seq<byte>, pos: nat): nat
    requires pos + 8 <= |s|
  {
    s[pos + 5] as nat
  }

  function CountAt(s: seq<byte>, pos: nat): nat
    requires pos + 8 <= |s|
  {
    s[pos + 6] as nat * 0x100 + s[pos + 7] as nat
  }

  /** data_length: the value size times the value count. */
  function DataLengthAt(s: seq<byte>, pos: nat): nat
    requires pos + 8 <= |s|
  {
    ValSizeAt(s, pos) * CountAt(s, pos)
  }

  /**
    The scale divisors a GPS5 sample is divided by are usable: indices 0, 1
    and 3 exist and none of them is zero.
   */
  predicate Usable(scales: seq<nat>) {
    |scales| >= 4 && scales[0] != 0 && scales[1] != 0 && scales[3] != 0
  }

  /** The sample a 20-byte GPS5 value gives under usable scales. */
  function Decode(raw: seq<byte>, scales: seq<nat>): Sample
    requires |raw| == 20 && Usable(scales)
  {
    Sample(BeInt32(raw[0..4]), scales[0], BeInt32(raw[4..8]), scales[1], BeInt32(raw[12..16]), scales[3])
  }

  /** Dividing latitude, longitude and speed by scales 0, 1 and 3, with Python's order of failures. */
  function ScaledSample(raw: seq<byte>, scales: seq<nat>): Result<Sample>
    requires |raw| == 20
  {
    if |scales| < 1 then Err(ScaleIndexError)
    else if scales[0] == 0 then Err(ZeroScaleError)
    else if |scales| < 2 then Err(ScaleIndexError)
    else if scales[1] == 0 then Err(ZeroScaleError)
    else if |scales| < 4 then Err(ScaleIndexError)
    else if scales[3] == 0 then Err(ZeroScaleError)
    else Ok(Decode(raw, scales))
  }

  /** One GPS5 value: `raw` is what was read for it. */
  function Gps5Value(raw: seq<byte>, valSize: nat, st: ParseState): Result<ParseState> {
    if valSize != 20 then Err(Gps5SizeError(valSize))
    else if |raw| != 20 then Err(StructError)
    else if !st.ok then Ok(st)
    else
      match ScaledSample(raw, st.scales)
      case Err(e) => Err(e)
      case Ok(sample) =>
        match st.current
        case None => Err(NoSessionError)
        case Some(c) => Ok(st.(current := Some(c.(samples := c.samples + [sample]))))
  }

  /** The stored sessions once a GPSU value has closed the open one. */
  function Stored(st: ParseState): seq<Session> {
    match st.current
    case Some(c) => if c.samples != [] then st.sessions + [c] else st.sessions
    case None => st.sessions
  }

  /** One GPSU value: close the open session and open one at the timestamp `payload` spells. */
  function GpsuValue(payload: seq<byte>, st: ParseState, parseTime: seq<byte> -> Option<int>): Result<ParseState> {
    match parseTime(payload)
    case None => Err(TimestampError)
    case Some(t) => Ok(st.(sessions := Stored(st), current := Some(Session(t, []))))
  }

  /** One value of a record that is not SCAL, at `pos`, then the gate recomputed. */
  function ValueStep(
    s: seq<byte>, tag: Tag, valSize: nat, dataLength: nat,
    st: ParseState, pos: nat, parseTime: seq<byte> -> Option<int>): Result<ParseState>
    requires pos <= |s|
  {
    var bytes := s[pos..Advance(|s|, pos, PerValue(tag, valSize, dataLength))];
    var after :=
      if tag == Gps5 then Gps5Value(bytes, valSize, st)
      else if tag == Gpsu then GpsuValue(bytes, st, parseTime)
      else if tag == Gpsf then (if |bytes| == 4 then Ok(st.(fix := BeUint32(bytes))) else Err(StructError))
      else if tag == Gpsp then (if |bytes| == 2 then Ok(st.(accuracy := BeUint16(bytes))) else Err(StructError))
      else Ok(st);
    match after
    case Err(e) => Err(e)
    case Ok(st') => Ok(st'.(ok := Gate(st'.fix, st'.accuracy)))
  }

  /** The values of a record that is not SCAL, from the i-th to the last. */
  function ValuesFrom(
    s: seq<byte>, tag: Tag, valSize: nat, dataLength: nat, count: nat, i: nat,
    st: ParseState, pos: nat, parseTime: seq<byte> -> Option<int>): (r: Result<Cursor>)
    requires i <= count && pos <= |s|
    ensures r.Ok? ==> pos <= r.value.pos <= |s|
    decreases count - i
  {
    if i == count then Ok(Cursor(st, pos))
    else
      match ValueStep(s, tag, valSize, dataLength, st, pos, parseTime)
      case Err(e) => Err(e)
      case Ok(st') =>
        ValuesFrom(s, tag, valSize, dataLength, count, i + 1, st',
                   Advance(|s|, pos, PerValue(tag, valSize, dataLength)), parseTime)
  }

  /** The values of a SCAL record from the i-th to the last, appended to st.scales. */
  function ScalesFrom(s: seq<byte>, valSize: nat, count: nat, i: nat, st: ParseState, pos: nat): (r: Result<Cursor>)
    requires i <= count && pos <= |s|
    ensures r.Ok? ==> pos <= r.value.pos <= |s|
    decreases count - i
  {
    if i == count then Ok(Cursor(st, pos))
    else if valSize == 2 || valSize == 4 then
      var next := Advance(|s|, pos, valSize);
      var bytes := s[pos..next];
      if |bytes| != valSize then Err(StructError)
      else ScalesFrom(s, valSize, count, i + 1, st.(scales := st.scales + [Unsigned(bytes)]), next)
    else Err(ScaleSizeError(valSize))
  }

  /** The payload of the record at `pos`, read value by value as its tag says. */
  function Payload(s: seq<byte>, pos: nat, st: ParseState, parseTime: seq<byte> -> Option<int>): (r: Result<Cursor>)
    requires pos + 8 <= |s|
    ensures r.Ok? ==> pos + 8 <= r.value.pos <= |s|
  {
    if TagAt(s, pos) == Scal then ScalesFrom(s, ValSizeAt(s, pos), CountAt(s, pos), 0, st.(scales := []), pos + 8)
    else ValuesFrom(s, TagAt(s, pos), ValSizeAt(s, pos), DataLengthAt(s, pos), CountAt(s, pos), 0, st, pos + 8, parseTime)
  }

  /**
    One record at `pos`: its header, its payload as the tag says, and the
    padding to the next multiple of four after data_length bytes.
   */
  function RecordStep(s: seq<byte>, pos: nat, st: ParseState, parseTime: seq<byte> -> Option<int>): (r: Step)
    requires pos <= |s|
    ensures r.Next? ==> pos + 8 <= r.pos <= |s|
  {
    if |s| - pos < 8 then Stop
    else if TypeAt(s, pos) == 0 then Next(st, pos + 8)
    else if TagAt(s, pos) == Empt then Next(st, Advance(|s|, pos + 8, 4))
    else
      match Payload(s, pos, st, parseTime)
      case Err(e) => Fail(e)
      case Ok(c) => Next(c.st, Advance(|s|, c.pos, PadLength(DataLengthAt(s, pos))))
  }

  /** The records from `pos` to the end of the stream: the sessions stored, or the error raised. */
  function ParseFrom(s: seq<byte>, pos: nat, st: ParseState, parseTime: seq<byte> -> Option<int>): Result<seq<Session>>
    requires pos <= |s|
    decreases |s| - pos
  {
    match RecordStep(s, pos, st, parseTime)
    case Stop => Ok(st.sessions)
    case Fail(e) => Err(e)
    case Next(st', pos') => ParseFrom(s, pos', st', parseTime)
  }
}
