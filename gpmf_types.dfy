/**
  Values shared by the GPMF record reader and the timestamp interpolator of
  gopro2gpx: the parse state that outlives each record, the sessions it
  accumulates, the samples and points, the errors the reader raises, and the
  big-endian integer decoding of the telemetry bytes.
 */
module GpmfTypes {

  datatype Option<T> = None | Some(value: T)

  /** A byte of the telemetry stream. */
  newtype byte = b: int | 0 <= b < 0x100

  /** Every way gopro_binary_to_csv can raise instead of returning points. */
  datatype Error =
    | ScaleSizeError(valSize: nat)   // explicit raise: a SCAL value size other than 2 or 4
    | Gps5SizeError(valSize: nat)    // explicit raise: a GPS5 value size other than 20
    | StructError                    // struct.unpack handed a byte string of the wrong length
    | ScaleIndexError                // scales[k] past the end of the scale list
    | ZeroScaleError                 // a raw value divided by a zero scale
    | NoSessionError                 // a sample appended while no GPSU has opened a session
    | TimestampError                 // a GPSU payload that is not a timestamp

  datatype Result<T> = Ok(value: T) | Err(error: Error)

  /** One microsecond count stands for a datetime; one second is this many. */
  const OneSecond: int := 1_000_000

  /**
    A GPS5 value that passed the quality gate: the raw signed latitude,
    longitude and 2D speed, each with the scale divisor it is to be divided by.
   */
  datatype Sample = Sample(lat: int, latScale: nat, lon: int, lonScale: nat, speed: int, speedScale: nat)

  /** The samples read after one GPSU record, with that record's timestamp. */
  datatype Session = Session(start: int, samples: seq<Sample>)

  /** A sample with the timestamp interpolation gave it. */
  datatype Point = Point(sample: Sample, time: int)

  /**
    The reader's state between records: the scale list, the last GPS fix and
    accuracy, the recording gate, the open session (None while nothing opened
    one) and the sessions stored so far.
   */
  datatype ParseState = ParseState(
    scales: seq<nat>,
    fix: nat,
    accuracy: nat,
    ok: bool,
    current: Option<Session>,
    sessions: seq<Session>)

  /** The state a parse starts from. */
  const Init: ParseState := ParseState([1, 1, 1, 1], 0, 9999, false, None, [])

  /** The recording gate: a 2D or 3D lock and an accuracy under 500. */
  predicate Gate(fix: int, accuracy: int) {
    (fix == 2 || fix == 3) && accuracy < 500
  }

  predicate AllNonEmpty(data: seq<Session>) {
    forall i :: 0 <= i < |data| ==> data[i].samples != []
  }

  /**
    What holds of every state the reader reaches: the gate agrees with the
    fix and accuracy, and every stored session holds a sample.
   */
  predicate Consistent(st: ParseState) {
    st.ok == Gate(st.fix, st.accuracy) && AllNonEmpty(st.sessions)
  }

  /** What the reader does with a record, by its label: one of the six labels it tests for, or none. */
  datatype Tag = Scal | Gps5 | Gpsu | Gpsf | Gpsp | Empt | Other

  /** The tag of a four-byte label: the ASCII label it equals, byte for byte. */
  function Classify(label4: seq<byte>): Tag
    requires |label4| == 4
  {
    match (label4[0], label4[1], label4[2], label4[3])
    case (0x53, 0x43, 0x41, 0x4C) => Scal  // "SCAL"
    case (0x47, 0x50, 0x53, 0x35) => Gps5  // "GPS5"
    case (0x47, 0x50, 0x53, 0x55) => Gpsu  // "GPSU"
    case (0x47, 0x50, 0x53, 0x46) => Gpsf  // "GPSF"
    case (0x47, 0x50, 0x53, 0x50) => Gpsp  // "GPSP"
    case (0x45, 0x4D, 0x50, 0x54) => Empt  // "EMPT"
    case _ => Other
  }

  /** The unsigned big-endian integer of two bytes, as struct's '>H' reads it. */
  function BeUint16(bs: seq<byte>): (r: nat)
    requires |bs| == 2
    ensures r < 0x1_0000
  {
    bs[0] as nat * 0x100 + bs[1] as nat
  }

  /** The unsigned big-endian integer of four bytes, as struct's '>I' reads it. */
  function BeUint32(bs: seq<byte>): (r: nat)
    requires |bs| == 4
    ensures r < 0x1_0000_0000
  {
    bs[0] as nat * 0x100_0000 + bs[1] as nat * 0x1_0000 + bs[2] as nat * 0x100 + bs[3] as nat
  }

  /** A scale value: two bytes read as '>H', four as '>I'. */
  function Unsigned(bs: seq<byte>): nat
    requires |bs| == 2 || |bs| == 4
  {
    if |bs| == 2 then BeUint16(bs) else BeUint32(bs)
  }

  /**
    The signed (two's complement) big-endian 32-bit integer of four bytes,
    as struct's '>i' reads it: in range, and equal to the unsigned reading
    modulo 2^32.
   */
  function BeInt32(bs: seq<byte>): (r: int)
    requires |bs| == 4
    ensures -0x8000_0000 <= r < 0x8000_0000
    ensures r % 0x1_0000_0000 == BeUint32(bs)
    ensures r < 0 <==> bs[0] >= 0x80
  {
    var u := BeUint32(bs);
    if u >= 0x8000_0000 then u - 0x1_0000_0000 else u
  }
}
