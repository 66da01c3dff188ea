/**
  What the model is proved to do on concrete streams: a short recording that opens a
  session, locks the GPS and records two samples; a GPSU record with several
  values that leaves the cursor off the four-byte grid; and a last session
  whose final timestamp lands past the end of its one-second span.
 */
module Scenarios {
  import opened GpmfTypes
  import opened GpmfReader
  import opened Interpolation
  import opened GpmfProperties
  import opened GoPro2Gpx

  // The records of a short recording, header by header.
  const ScalHeader: seq<byte> := [0x53, 0x43, 0x41, 0x4C, 0x53, 2, 0, 4]    // SCAL, '>H' x 4
  const Ones: seq<byte> := [0, 1, 0, 1, 0, 1, 0, 1]
  const GpsuHeader: seq<byte> := [0x47, 0x50, 0x53, 0x55, 0x55, 16, 0, 1]   // GPSU, 16 bytes x 1
  const FirstStamp: seq<byte> := [0x32, 0x31, 0x30, 0x36, 0x31, 0x35, 0x31, 0x32, 0x30, 0x30, 0x30, 0x30, 0x2E, 0x30, 0x30, 0x30]
  const SecondStamp: seq<byte> := [0x32, 0x31, 0x30, 0x36, 0x31, 0x35, 0x31, 0x32, 0x30, 0x30, 0x30, 0x32, 0x2E, 0x30, 0x30, 0x30]
  const GpsfHeader: seq<byte> := [0x47, 0x50, 0x53, 0x46, 0x4C, 4, 0, 1]    // GPSF, '>I' x 1
  const GpspHeader: seq<byte> := [0x47, 0x50, 0x53, 0x50, 0x53, 2, 0, 1]    // GPSP, '>H' x 1
  const Gps5Header: seq<byte> := [0x47, 0x50, 0x53, 0x35, 0x6C, 20, 0, 2]   // GPS5, 20 bytes x 2
  const FirstValue: seq<byte> := [0, 1, 0x86, 0xA0, 0, 3, 0x0D, 0x40, 0, 0, 0, 0, 0, 0, 0x01, 0xF4, 0, 0, 0, 0]
  const SecondValue: seq<byte> := [0, 1, 0x86, 0xAA, 0, 3, 0x0D, 0x4A, 0, 0, 0, 0, 0, 0, 0x02, 0x08, 0, 0, 0, 0]

  /**
    SCAL [1, 1, 1, 1]; GPSU "210615120000.000"; GPSF 3; GPSP 100, with two
    bytes of padding; GPS5 with the values (100000, 200000, 0, 500, 0) and
    (100010, 200010, 0, 520, 0); GPSU "210615120002.000".
   */
  const Recording: seq<byte> := RecordingHead + RecordingTail
  const RecordingHead: seq<byte> :=
    ScalHeader + Ones + GpsuHeader + FirstStamp + GpsfHeader + [0, 0, 0, 3] + GpspHeader + [0, 100, 0, 0]
  const RecordingTail: seq<byte> := Gps5Header + FirstValue + SecondValue + GpsuHeader + SecondStamp

  /** A slice of a concatenation that lies in its left part. */
  lemma SliceLeft(a: seq<byte>, b: seq<byte>, i: nat, j: nat)
    requires i <= j <= |a|
    ensures (a + b)[i..j] == a[i..j]
  {
  }

  /** A slice of a concatenation that lies in its right part. */
  lemma SliceRight(a: seq<byte>, b: seq<byte>, i: nat, j: nat)
    requires |a| <= i <= j <= |a| + |b|
    ensures (a + b)[i..j] == b[i - |a|..j - |a|]
  {
  }

  /** Where the recording's records start. */
  lemma RecordingLayout()
    ensures |Recording| == 136
    ensures Recording[0..8] == ScalHeader && Recording[8..16] == Ones
    ensures Recording[16..24] == GpsuHeader && Recording[24..40] == FirstStamp
    ensures Recording[40..48] == GpsfHeader && Recording[48..52] == [0, 0, 0, 3]
    ensures Recording[52..60] == GpspHeader && Recording[60..62] == [0, 100]
    ensures Recording[64..72] == Gps5Header && Recording[72..92] == FirstValue && Recording[92..112] == SecondValue
    ensures Recording[112..120] == GpsuHeader && Recording[120..136] == SecondStamp
  {
    RecordingLayoutHead();
    RecordingLayoutTail();
  }

  lemma RecordingLayoutHead()
    ensures |Recording| == 136
    ensures Recording[0..8] == ScalHeader && Recording[8..16] == Ones
    ensures Recording[16..24] == GpsuHeader && Recording[24..40] == FirstStamp
    ensures Recording[40..48] == GpsfHeader && Recording[48..52] == [0, 0, 0, 3]
    ensures Recording[52..60] == GpspHeader && Recording[60..62] == [0, 100]
  {
    var head, tail := RecordingHead, RecordingTail;
    LayoutHead(head);
    LayoutTail(tail);
    SliceLeft(head, tail, 0, 8);
    SliceLeft(head, tail, 8, 16);
    SliceLeft(head, tail, 16, 24);
    SliceLeft(head, tail, 24, 40);
    SliceLeft(head, tail, 40, 48);
    SliceLeft(head, tail, 48, 52);
    SliceLeft(head, tail, 52, 60);
    SliceLeft(head, tail, 60, 62);
  }

  lemma RecordingLayoutTail()
    ensures |Recording| == 136
    ensures Recording[64..72] == Gps5Header && Recording[72..92] == FirstValue && Recording[92..112] == SecondValue
    ensures Recording[112..120] == GpsuHeader && Recording[120..136] == SecondStamp
  {
    var head, tail := RecordingHead, RecordingTail;
    LayoutHead(head);
    LayoutTail(tail);
    SliceRight(head, tail, 64, 72);
    SliceRight(head, tail, 72, 92);
    SliceRight(head, tail, 92, 112);
    SliceRight(head, tail, 112, 120);
    SliceRight(head, tail, 120, 136);
  }

  lemma LayoutHead(head: seq<byte>)
    requires head == ScalHeader + Ones + GpsuHeader + FirstStamp + GpsfHeader + [0, 0, 0, 3] + GpspHeader + [0, 100, 0, 0]
    ensures |head| == 64
    ensures head[0..8] == ScalHeader && head[8..16] == Ones
    ensures head[16..24] == GpsuHeader && head[24..40] == FirstStamp
    ensures head[40..48] == GpsfHeader && head[48..52] == [0, 0, 0, 3]
    ensures head[52..60] == GpspHeader && head[60..62] == [0, 100]
  {
  }

  lemma LayoutTail(tail: seq<byte>)
    requires tail == Gps5Header + FirstValue + SecondValue + GpsuHeader + SecondStamp
    ensures |tail| == 72
    ensures tail[0..8] == Gps5Header && tail[8..28] == FirstValue && tail[28..48] == SecondValue
    ensures tail[48..56] == GpsuHeader && tail[56..72] == SecondStamp
  {
  }

  // Each record of the recording, wherever a stream holds it, from any state.

  /** The header fields of a record whose eight header bytes are `h`. */
  lemma HeaderBytes(s: seq<byte>, pos: nat, h: seq<byte>)
    requires pos + 8 <= |s| && |h| == 8 && s[pos..pos + 8] == h
    ensures TagAt(s, pos) == Classify(h[0..4]) && TypeAt(s, pos) == h[4]
    ensures ValSizeAt(s, pos) == h[5] as nat && CountAt(s, pos) == h[6] as nat * 0x100 + h[7] as nat
  {
    assert s[pos..pos + 4] == h[0..4];
    assert s[pos + 4] == h[4] && s[pos + 5] == h[5] && s[pos + 6] == h[6] && s[pos + 7] == h[7];
  }

  /** A SCAL record of four '>H' ones sets the scales to [1, 1, 1, 1]. */
  lemma ScalOnes(s: seq<byte>, pos: nat, st: ParseState, pt: seq<byte> -> Option<int>)
    requires pos + 16 <= |s| && s[pos..pos + 8] == ScalHeader && s[pos + 8..pos + 16] == Ones
    ensures RecordStep(s, pos, st, pt) == Next(st.(scales := [1, 1, 1, 1]), pos + 16)
  {
    HeaderBytes(s, pos, ScalHeader);
    ScalRecord(s, pos, st, pt);
    OnesList(s, pos + 8);
  }

  lemma OnesList(s: seq<byte>, pos: nat)
    requires pos + 8 <= |s| && s[pos..pos + 8] == Ones
    ensures ScaleList(s, pos, 2, 4) == [1, 1, 1, 1]
  {
    var o := s[pos..pos + 8];
    assert o[0] == s[pos] == 0 && o[1] == s[pos + 1] == 1 && o[2] == s[pos + 2] == 0 && o[3] == s[pos + 3] == 1;
    assert o[4] == s[pos + 4] == 0 && o[5] == s[pos + 5] == 1 && o[6] == s[pos + 6] == 0 && o[7] == s[pos + 7] == 1;
    assert ScaleList(s, pos + 8, 2, 0) == [];
    assert ScaleList(s, pos + 6, 2, 1) == [1];
    assert ScaleList(s, pos + 4, 2, 2) == [1, 1];
    assert ScaleList(s, pos + 2, 2, 3) == [1, 1, 1];
  }

  /** A GPSU record of one 16-byte timestamp stores the open session if it holds a sample and opens one at that time. */
  lemma StampRecord(s: seq<byte>, pos: nat, st: ParseState, pt: seq<byte> -> Option<int>, t: int)
    requires pos + 24 <= |s| && s[pos..pos + 8] == GpsuHeader && pt(s[pos + 8..pos + 24]) == Some(t)
    ensures RecordStep(s, pos, st, pt)
         == Next(st.(sessions := Stored(st), current := Some(Session(t, [])), ok := Gate(st.fix, st.accuracy)), pos + 24)
  {
    HeaderBytes(s, pos, GpsuHeader);
    GpsuRecord(s, pos, st, pt);
  }

  /** A GPSF record of the value 3 sets a 3D fix. */
  lemma FixRecord(s: seq<byte>, pos: nat, st: ParseState, pt: seq<byte> -> Option<int>)
    requires pos + 12 <= |s| && s[pos..pos + 8] == GpsfHeader && s[pos + 8..pos + 12] == [0, 0, 0, 3]
    ensures RecordStep(s, pos, st, pt) == Next(st.(fix := 3, ok := Gate(3, st.accuracy)), pos + 12)
  {
    HeaderBytes(s, pos, GpsfHeader);
    var st' := st.(fix := 3, ok := Gate(3, st.accuracy));
    assert ValueStep(s, Gpsf, 4, 4, st, pos + 8, pt) == Ok(st');
    assert ValuesFrom(s, Gpsf, 4, 4, 1, 1, st', pos + 12, pt) == Ok(Cursor(st', pos + 12));
    assert Payload(s, pos, st, pt) == Ok(Cursor(st', pos + 12));
    RecordStepPayload(s, pos, st, pt, Cursor(st', pos + 12));
  }

  /** A GPSP record of the value 100, then two bytes of padding, sets an accuracy of 100. */
  lemma AccuracyRecord(s: seq<byte>, pos: nat, st: ParseState, pt: seq<byte> -> Option<int>)
    requires pos + 12 <= |s| && s[pos..pos + 8] == GpspHeader && s[pos + 8..pos + 10] == [0, 100]
    ensures RecordStep(s, pos, st, pt) == Next(st.(accuracy := 100, ok := Gate(st.fix, 100)), pos + 12)
  {
    HeaderBytes(s, pos, GpspHeader);
    var st' := st.(accuracy := 100, ok := Gate(st.fix, 100));
    assert ValueStep(s, Gpsp, 2, 2, st, pos + 8, pt) == Ok(st');
    assert ValuesFrom(s, Gpsp, 2, 2, 1, 1, st', pos + 10, pt) == Ok(Cursor(st', pos + 10));
    assert Payload(s, pos, st, pt) == Ok(Cursor(st', pos + 10));
    RecordStepPayload(s, pos, st, pt, Cursor(st', pos + 10));
  }

  /** The two GPS5 values, divided by scales of one. */
  lemma ValuesDecoded()
    ensures Decode(FirstValue, [1, 1, 1, 1]) == Sample(100000, 1, 200000, 1, 500, 1)
    ensures Decode(SecondValue, [1, 1, 1, 1]) == Sample(100010, 1, 200010, 1, 520, 1)
  {
    assert FirstValue[0..4] == [0, 1, 0x86, 0xA0] && FirstValue[4..8] == [0, 3, 0x0D, 0x40];
    assert FirstValue[12..16] == [0, 0, 0x01, 0xF4];
    assert SecondValue[0..4] == [0, 1, 0x86, 0xAA] && SecondValue[4..8] == [0, 3, 0x0D, 0x4A];
    assert SecondValue[12..16] == [0, 0, 0x02, 0x08];
  }

  /** A GPS5 record of the two values, with the gate open, appends both samples to the open session. */
  lemma SamplesRecord(s: seq<byte>, pos: nat, st: ParseState, pt: seq<byte> -> Option<int>)
    requires pos + 48 <= |s| && s[pos..pos + 8] == Gps5Header
    requires s[pos + 8..pos + 28] == FirstValue && s[pos + 28..pos + 48] == SecondValue
    requires Consistent(st) && st.ok && st.scales == [1, 1, 1, 1] && st.current.Some?
    ensures RecordStep(s, pos, st, pt)
         == Next(WithSamples(st, [Sample(100000, 1, 200000, 1, 500, 1), Sample(100010, 1, 200010, 1, 520, 1)]), pos + 48)
  {
    HeaderBytes(s, pos, Gps5Header);
    assert ValSizeAt(s, pos) == 20 && CountAt(s, pos) == 2;
    Gps5Record(s, pos, st, pt);
    ValuesDecoded();
    var a, b := Sample(100000, 1, 200000, 1, 500, 1), Sample(100010, 1, 200010, 1, 520, 1);
    assert Gps5Samples(s, pos + 48, 0, st.scales) == [];
    assert Gps5Samples(s, pos + 28, 1, st.scales) == [b];
    assert Gps5Samples(s, pos + 8, 2, st.scales) == [a, b];
  }

  /** A record that the loop gets past hands the rest of the parse its state and cursor. */
  lemma ParseNext(s: seq<byte>, pos: nat, st: ParseState, pt: seq<byte> -> Option<int>, st': ParseState, pos': nat)
    requires pos <= |s| && RecordStep(s, pos, st, pt) == Next(st', pos')
    ensures ParseFrom(s, pos, st, pt) == ParseFrom(s, pos', st', pt)
  {
  }

  /** The recording stores one session: the one the first GPSU opened, holding both samples. */
  lemma RecordingSessions(t0: int, pt: seq<byte> -> Option<int>)
    requires pt(Recording[24..40]) == Some(t0)
    requires pt(Recording[120..136]) == Some(t0 + 2 * OneSecond)
    ensures ParseFrom(Recording, 0, Init, pt)
         == Ok([Session(t0, [Sample(100000, 1, 200000, 1, 500, 1), Sample(100010, 1, 200010, 1, 520, 1)])])
  {
    RecordingLayout();
    LaidOutSessions(Recording, t0, pt);
  }

  /** Any stream laid out as the recording stores the one session. */
  lemma LaidOutSessions(s: seq<byte>, t0: int, pt: seq<byte> -> Option<int>)
    requires |s| == 136
    requires s[0..8] == ScalHeader && s[8..16] == Ones
    requires s[16..24] == GpsuHeader && pt(s[24..40]) == Some(t0)
    requires s[40..48] == GpsfHeader && s[48..52] == [0, 0, 0, 3]
    requires s[52..60] == GpspHeader && s[60..62] == [0, 100]
    requires s[64..72] == Gps5Header && s[72..92] == FirstValue && s[92..112] == SecondValue
    requires s[112..120] == GpsuHeader && pt(s[120..136]) == Some(t0 + 2 * OneSecond)
    ensures ParseFrom(s, 0, Init, pt)
         == Ok([Session(t0, [Sample(100000, 1, 200000, 1, 500, 1), Sample(100010, 1, 200010, 1, 520, 1)])])
  {
    LaidOutSetup(s, t0, pt);
    LaidOutSamples(s, t0, pt);
  }

  /** The first four records open a session at t0 and the gate. */
  lemma LaidOutSetup(s: seq<byte>, t0: int, pt: seq<byte> -> Option<int>)
    requires |s| == 136
    requires s[0..8] == ScalHeader && s[8..16] == Ones
    requires s[16..24] == GpsuHeader && pt(s[24..40]) == Some(t0)
    requires s[40..48] == GpsfHeader && s[48..52] == [0, 0, 0, 3]
    requires s[52..60] == GpspHeader && s[60..62] == [0, 100]
    ensures ParseFrom(s, 0, Init, pt)
         == ParseFrom(s, 64, Init.(current := Some(Session(t0, [])), fix := 3, accuracy := 100, ok := true), pt)
  {
    var st2 := Init.(current := Some(Session(t0, [])));
    var st3 := st2.(fix := 3);
    assert Init.(scales := [1, 1, 1, 1]) == Init;
    ScalOnes(s, 0, Init, pt);
    ParseNext(s, 0, Init, pt, Init, 16);
    StampRecord(s, 16, Init, pt, t0);
    ParseNext(s, 16, Init, pt, st2, 40);
    FixRecord(s, 40, st2, pt);
    ParseNext(s, 40, st2, pt, st3, 52);
    AccuracyRecord(s, 52, st3, pt);
    ParseNext(s, 52, st3, pt, st3.(accuracy := 100, ok := true), 64);
  }

  /** The GPS5 record fills the session, and the second GPSU stores it. */
  lemma LaidOutSamples(s: seq<byte>, t0: int, pt: seq<byte> -> Option<int>)
    requires |s| == 136
    requires s[64..72] == Gps5Header && s[72..92] == FirstValue && s[92..112] == SecondValue
    requires s[112..120] == GpsuHeader && pt(s[120..136]) == Some(t0 + 2 * OneSecond)
    ensures ParseFrom(s, 64, Init.(current := Some(Session(t0, [])), fix := 3, accuracy := 100, ok := true), pt)
         == Ok([Session(t0, [Sample(100000, 1, 200000, 1, 500, 1), Sample(100010, 1, 200010, 1, 520, 1)])])
  {
    var a, b := Sample(100000, 1, 200000, 1, 500, 1), Sample(100010, 1, 200010, 1, 520, 1);
    var st4 := Init.(current := Some(Session(t0, [])), fix := 3, accuracy := 100, ok := true);
    var st5 := st4.(current := Some(Session(t0, [a, b])));
    assert WithSamples(st4, [a, b]) == st5 by {
      assert st4.current.value.samples + [a, b] == [a, b];
    }
    SamplesRecord(s, 64, st4, pt);
    ParseNext(s, 64, st4, pt, st5, 112);
    LaidOutClose(s, t0, pt, st5);
  }

  /** The second GPSU stores a session that holds a sample; the one it opens is discarded at the end of the stream. */
  lemma LaidOutClose(s: seq<byte>, t0: int, pt: seq<byte> -> Option<int>, st: ParseState)
    requires |s| == 136
    requires s[112..120] == GpsuHeader && pt(s[120..136]) == Some(t0 + 2 * OneSecond)
    requires st.sessions == [] && st.current.Some? && st.current.value.samples != []
    ensures ParseFrom(s, 112, st, pt) == Ok([st.current.value])
  {
    assert Stored(st) == [st.current.value];
    var st' := st.(sessions := Stored(st), current := Some(Session(t0 + 2 * OneSecond, [])), ok := Gate(st.fix, st.accuracy));
    StampRecord(s, 112, st, pt, t0 + 2 * OneSecond);
    ParseNext(s, 112, st, pt, st', 136);
    ShortTailStops(s, 136, st', pt);
  }

  /** A last session of two samples: the second is stamped half a second after the first. */
  lemma TwoSamplePoints(t0: int, a: Sample, b: Sample)
    ensures Interpolate([Session(t0, [a, b])]) == [Point(a, t0), Point(b, t0 + OneSecond / 2)]
  {
    var data := [Session(t0, [a, b])];
    assert StepOf(data, 0) == OneSecond / 2;
    assert Interpolate(data) == PointsUpTo(data, 0) + SessionPoints(data, 0);
  }

  /**
    The recording gives exactly its two samples, with their raw values and
    divisors of one. The second GPSU opens a session that is never stored, so
    the first session is the last one and spans one second, not the two
    seconds up to the second timestamp: the second point is half a second
    after the first.
   */
  lemma RecordingPoints(t0: int, parseTime: seq<byte> -> Option<int>)
    requires parseTime(Recording[24..40]) == Some(t0)
    requires parseTime(Recording[120..136]) == Some(t0 + 2 * OneSecond)
    ensures BinaryToCsv(Recording, parseTime)
         == Ok([Point(Sample(100000, 1, 200000, 1, 500, 1), t0),
                Point(Sample(100010, 1, 200010, 1, 520, 1), t0 + OneSecond / 2)])
  {
    RecordingSessions(t0, parseTime);
    TwoSamplePoints(t0, Sample(100000, 1, 200000, 1, 500, 1), Sample(100010, 1, 200010, 1, 520, 1));
  }

  /**
    A GPSU record declaring two nine-byte values: data_length is 18, so the
    record takes 28 bytes with its padding, but each value reads all 18 bytes
    of data_length. Two full timestamps are read, the first session they open
    is dropped empty, and the cursor ends 46 bytes on, off the four-byte grid.
   */
  lemma GpsuOverreads(s: seq<byte>, pos: nat, st: ParseState, pt: seq<byte> -> Option<int>, t1: int, t2: int)
    requires pos + 46 <= |s| && s[pos..pos + 8] == OverreadHeader
    requires pt(s[pos + 8..pos + 26]) == Some(t1) && pt(s[pos + 26..pos + 44]) == Some(t2)
    ensures RecordSize(s, pos) == 28
    ensures RecordStep(s, pos, st, pt)
         == Next(st.(sessions := Stored(st), current := Some(Session(t2, [])), ok := Gate(st.fix, st.accuracy)), pos + 46)
  {
    HeaderBytes(s, pos, OverreadHeader);
    assert DataLengthAt(s, pos) == 18 && PerValue(Gpsu, 9, 18) == 18;
    var st1 := st.(sessions := Stored(st), current := Some(Session(t1, [])), ok := Gate(st.fix, st.accuracy));
    var st2 := st.(sessions := Stored(st), current := Some(Session(t2, [])), ok := Gate(st.fix, st.accuracy));
    assert ValueStep(s, Gpsu, 9, 18, st, pos + 8, pt) == Ok(st1);
    assert Stored(st1) == Stored(st);
    assert ValueStep(s, Gpsu, 9, 18, st1, pos + 26, pt) == Ok(st2);
    assert ValuesFrom(s, Gpsu, 9, 18, 2, 2, st2, pos + 44, pt) == Ok(Cursor(st2, pos + 44));
    assert ValuesFrom(s, Gpsu, 9, 18, 2, 1, st1, pos + 26, pt) == Ok(Cursor(st2, pos + 44));
    assert Payload(s, pos, st, pt) == Ok(Cursor(st2, pos + 44));
    RecordStepPayload(s, pos, st, pt, Cursor(st2, pos + 44));
  }

  const OverreadHeader: seq<byte> := [0x47, 0x50, 0x53, 0x55, 0x55, 9, 0, 2]   // GPSU, 9 bytes x 2
  // "210615120000.00000" and "210615120001.00000": each is one full data_length read.
  const FirstUtc: seq<byte> :=
    [0x32, 0x31, 0x30, 0x36, 0x31, 0x35, 0x31, 0x32, 0x30, 0x30, 0x30, 0x30, 0x2E, 0x30, 0x30, 0x30, 0x30, 0x30]
  const SecondUtc: seq<byte> :=
    [0x32, 0x31, 0x30, 0x36, 0x31, 0x35, 0x31, 0x32, 0x30, 0x30, 0x30, 0x31, 0x2E, 0x30, 0x30, 0x30, 0x30, 0x30]
  const Overread: seq<byte> := OverreadHeader + FirstUtc + SecondUtc + [0, 0, 0, 0]

  /**
    The stream Overread: a record declared as 28 bytes leaves the cursor at
    byte 46, two bytes past a four-byte boundary, when both of its 18-byte
    reads parse as timestamps.
   */
  lemma GpsuOverread(st: ParseState, parseTime: seq<byte> -> Option<int>, t1: int, t2: int)
    requires parseTime(FirstUtc) == Some(t1) && parseTime(SecondUtc) == Some(t2)
    ensures RecordSize(Overread, 0) == 28
    ensures RecordStep(Overread, 0, st, parseTime).Next?
    ensures RecordStep(Overread, 0, st, parseTime).pos == 46 && RecordStep(Overread, 0, st, parseTime).pos % 4 == 2
  {
    var s := Overread;
    assert |s| == 48;
    assert s[0..8] == OverreadHeader && s[8..26] == FirstUtc && s[26..44] == SecondUtc;
    GpsuOverreads(s, 0, st, parseTime, t1, t2);
  }

  /**
    A last session of 1800 samples: its step rounds 1000000 / 1800 up to 556
    microseconds, and its last sample is stamped 1000244 microseconds after
    its start, past the end of its one-second span.
   */
  lemma LastPointPastEnd(data: seq<Session>)
    requires AllNonEmpty(data) && |data| > 0 && |data[|data| - 1].samples| == 1800
    ensures SamplesUpTo(data, |data| - 1) + 1799 < |Interpolate(data)|
    ensures var i := |data| - 1;
      Interpolate(data)[SamplesUpTo(data, i) + 1799].time == data[i].start + 1000244 > SessionEnd(data, i)
  {
    var i := |data| - 1;
    assert DivRound(OneSecond, 1800) == 556;
    InterpolateAt(data, i, 1799);
  }
}
