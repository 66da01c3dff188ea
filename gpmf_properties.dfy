/**
  What the record reader of gopro_binary_to_csv does, proved of the
  functions of GpmfReader: how many bytes each record consumes, what each
  tag does to the parse state, which errors it raises, and that the stored
  sessions only grow and always hold a sample.
 */
module GpmfProperties {
  import opened GpmfTypes
  import opened GpmfReader

  /** Two reads move the cursor as one read of their total length. */
  lemma AdvanceAdvance(len: nat, pos: nat, m: nat, n: nat)
    requires pos <= len
    ensures Advance(len, Advance(len, pos, m), n) == Advance(len, pos, m + n)
  {
  }

  // ----- Framing -------------------------------------------------------------

  /** Records of type zero and EMPT records: the header, four more bytes for EMPT, and no change of state. */
  lemma SkippedRecords(s: seq<byte>, pos: nat, st: ParseState, parseTime: seq<byte> -> Option<int>)
    requires pos + 8 <= |s|
    ensures TypeAt(s, pos) == 0 ==> RecordStep(s, pos, st, parseTime) == Next(st, pos + 8)
    ensures TypeAt(s, pos) != 0 && TagAt(s, pos) == Empt
        ==> RecordStep(s, pos, st, parseTime) == Next(st, Advance(|s|, pos + 8, 4))
  {
  }

  /**
    n * k as n additions of k. The lemmas about reading values count bytes
    with it, so that each step of their inductions is linear arithmetic;
    TimesIsProduct equates it with the product.
   */
  function Times(n: nat, k: nat): nat {
    if n == 0 then 0 else k + Times(n - 1, k)
  }

  lemma {:induction false} TimesIsProduct(n: nat, k: nat)
    ensures Times(n, k) == n * k == k * n
  {
    if n > 0 {
      TimesIsProduct(n - 1, k);
      assert n * k == (n - 1) * k + k;
    }
  }

  /** Reading the i-th of `count` values of k bytes leaves count - (i + 1) values of k bytes to read. */
  lemma Peel(count: nat, i: nat, k: nat)
    requires i < count
    ensures Times(count - i, k) == k + Times(count - (i + 1), k)
  {
    assert count - i - 1 == count - (i + 1);
  }

  /** The values of a record read PerValue bytes each, however many the stream still holds. */
  lemma {:induction false} ValuesConsume(
    s: seq<byte>, tag: Tag, valSize: nat, dataLength: nat, count: nat, i: nat,
    st: ParseState, pos: nat, parseTime: seq<byte> -> Option<int>)
    requires i <= count && pos <= |s|
    requires ValuesFrom(s, tag, valSize, dataLength, count, i, st, pos, parseTime).Ok?
    ensures ValuesFrom(s, tag, valSize, dataLength, count, i, st, pos, parseTime).value.pos
         == Advance(|s|, pos, Times(count - i, PerValue(tag, valSize, dataLength)))
    decreases count - i
  {
    if i < count {
      var per := PerValue(tag, valSize, dataLength);
      var st' := ValueStep(s, tag, valSize, dataLength, st, pos, parseTime).value;
      ValuesConsume(s, tag, valSize, dataLength, count, i + 1, st', Advance(|s|, pos, per), parseTime);
      AdvanceAdvance(|s|, pos, per, Times(count - (i + 1), per));
      Peel(count, i, per);
    }
  }

  /**
    The n big-endian unsigned values of valSize bytes each that start at
    `pos`, as far as the stream holds them.
   */
  function ScaleList(s: seq<byte>, pos: nat, valSize: nat, n: nat): seq<nat>
    requires valSize == 2 || valSize == 4
    decreases n
  {
    if n == 0 || pos + valSize > |s| then []
    else [Unsigned(s[pos..pos + valSize])] + ScaleList(s, pos + valSize, valSize, n - 1)
  }

  /** When the stream holds them, ScaleList has n values. */
  lemma {:induction false} ScaleListLength(s: seq<byte>, pos: nat, valSize: nat, n: nat)
    requires (valSize == 2 || valSize == 4) && pos + Times(n, valSize) <= |s|
    ensures |ScaleList(s, pos, valSize, n)| == n
    decreases n
  {
    if n > 0 {
      ScaleListLength(s, pos + valSize, valSize, n - 1);
    }
  }

  /** When the stream holds them, the k-th value of ScaleList is decoded from the valSize bytes k values past `pos`. */
  lemma {:induction false} ScaleListAt(s: seq<byte>, pos: nat, valSize: nat, n: nat, k: nat)
    requires (valSize == 2 || valSize == 4) && pos + Times(n, valSize) <= |s| && k < n
    ensures k < |ScaleList(s, pos, valSize, n)|
    ensures pos + Times(k, valSize) + valSize <= |s|
    ensures ScaleList(s, pos, valSize, n)[k]
         == Unsigned(s[pos + Times(k, valSize)..pos + Times(k, valSize) + valSize])
    decreases n
  {
    ScaleListLength(s, pos, valSize, n);
    var rest := ScaleList(s, pos + valSize, valSize, n - 1);
    assert ScaleList(s, pos, valSize, n) == [Unsigned(s[pos..pos + valSize])] + rest;
    if k > 0 {
      ScaleListAt(s, pos + valSize, valSize, n - 1, k - 1);
      var off := pos + valSize + Times(k - 1, valSize);
      assert pos + Times(k, valSize) == off;
      assert ScaleList(s, pos, valSize, n)[k] == rest[k - 1] == Unsigned(s[off..off + valSize]);
    }
  }

  /**
    The values of a SCAL record from the i-th on, when the stream holds them
    and the value size is 2 or 4: they are appended to the scale list and
    nothing else changes.
   */
  lemma {:induction false} ScalesRead(s: seq<byte>, valSize: nat, count: nat, i: nat, st: ParseState, pos: nat)
    requires i <= count && (valSize == 2 || valSize == 4)
    requires pos + Times(count - i, valSize) <= |s|
    ensures ScalesFrom(s, valSize, count, i, st, pos)
         == Ok(Cursor(st.(scales := st.scales + ScaleList(s, pos, valSize, count - i)), pos + Times(count - i, valSize)))
    decreases count - i
  {
    var n := count - i;
    if i == count {
      assert st.(scales := st.scales + []) == st;
    } else {
      Peel(count, i, valSize);
      var v := Unsigned(s[pos..pos + valSize]);
      ScalesRead(s, valSize, count, i + 1, st.(scales := st.scales + [v]), pos + valSize);
      assert ScaleList(s, pos, valSize, n) == [v] + ScaleList(s, pos + valSize, valSize, n - 1);
      assert st.scales + [v] + ScaleList(s, pos + valSize, valSize, n - 1) == st.scales + ScaleList(s, pos, valSize, n);
    }
  }

  /** The values of a SCAL record, when they are read without error, move the cursor past them and change only the scale list. */
  lemma {:induction false} ScalesConsume(s: seq<byte>, valSize: nat, count: nat, i: nat, st: ParseState, pos: nat)
    requires i <= count && pos <= |s|
    requires ScalesFrom(s, valSize, count, i, st, pos).Ok?
    ensures var c := ScalesFrom(s, valSize, count, i, st, pos).value;
      c == Cursor(st.(scales := c.st.scales), pos + Times(count - i, valSize))
    decreases count - i
  {
    if i < count {
      Peel(count, i, valSize);
      var v := Unsigned(s[pos..pos + valSize]);
      ScalesConsume(s, valSize, count, i + 1, st.(scales := st.scales + [v]), pos + valSize);
    }
  }

  /** The values of a SCAL record from the i-th on, when the stream runs out before the last: a struct error. */
  lemma {:induction false} ScalesShort(s: seq<byte>, valSize: nat, count: nat, i: nat, st: ParseState, pos: nat)
    requires i < count && (valSize == 2 || valSize == 4) && pos <= |s|
    requires pos + Times(count - i, valSize) > |s|
    ensures ScalesFrom(s, valSize, count, i, st, pos) == Err(StructError)
    decreases count - i
  {
    Peel(count, i, valSize);
    if pos + valSize <= |s| {
      var v := Unsigned(s[pos..pos + valSize]);
      ScalesShort(s, valSize, count, i + 1, st.(scales := st.scales + [v]), pos + valSize);
    }
  }

  /**
    A SCAL record replaces the scale list with exactly `count` values and
    leaves the fix, the accuracy, the gate and the sessions alone; it raises
    on a value size other than 2 or 4, or on a stream too short for the values.
   */
  lemma ScalRecord(s: seq<byte>, pos: nat, st: ParseState, parseTime: seq<byte> -> Option<int>)
    requires pos + 8 <= |s| && TypeAt(s, pos) != 0 && TagAt(s, pos) == Scal
    ensures var vs, n, dl, r := ValSizeAt(s, pos), CountAt(s, pos), DataLengthAt(s, pos), RecordStep(s, pos, st, parseTime);
      && (n == 0 ==> r == Next(st.(scales := []), pos + 8))
      && (n > 0 && vs != 2 && vs != 4 ==> r == Fail(ScaleSizeError(vs)))
      && (n > 0 && (vs == 2 || vs == 4) && pos + 8 + dl > |s| ==> r == Fail(StructError))
      && ((vs == 2 || vs == 4) && pos + 8 + dl <= |s| ==>
            r == Next(st.(scales := ScaleList(s, pos + 8, vs, n)), Advance(|s|, pos + 8 + dl, PadLength(dl))))
  {
    var vs, n, dl := ValSizeAt(s, pos), CountAt(s, pos), DataLengthAt(s, pos);
    var st0 := st.(scales := []);
    TimesIsProduct(n, vs);
    if n == 0 {
      assert Payload(s, pos, st, parseTime) == Ok(Cursor(st0, pos + 8));
      RecordStepPayload(s, pos, st, parseTime, Cursor(st0, pos + 8));
      if vs == 2 || vs == 4 {
        assert ScaleList(s, pos + 8, vs, n) == [];
      }
    } else if vs != 2 && vs != 4 {
      assert Payload(s, pos, st, parseTime) == Err(ScaleSizeError(vs));
      RecordStepFail(s, pos, st, parseTime, ScaleSizeError(vs));
    } else if pos + 8 + dl > |s| {
      ScalesShort(s, vs, n, 0, st0, pos + 8);
      RecordStepFail(s, pos, st, parseTime, StructError);
    } else {
      ScalesRead(s, vs, n, 0, st0, pos + 8);
      assert st0.(scales := st0.scales + ScaleList(s, pos + 8, vs, n)) == st.(scales := ScaleList(s, pos + 8, vs, n));
      RecordStepPayload(s, pos, st, parseTime, Cursor(st.(scales := ScaleList(s, pos + 8, vs, n)), pos + 8 + dl));
    }
  }

  /** Bytes the payload of a record reads: count values of PerValue bytes each. */
  function PayloadRead(s: seq<byte>, pos: nat): nat
    requires pos + 8 <= |s|
  {
    Times(CountAt(s, pos), PerValue(TagAt(s, pos), ValSizeAt(s, pos), DataLengthAt(s, pos)))
  }

  /** The payload of a record reads PayloadRead bytes, up to the end of the stream. */
  lemma PayloadConsume(s: seq<byte>, pos: nat, st: ParseState, parseTime: seq<byte> -> Option<int>)
    requires pos + 8 <= |s|
    requires Payload(s, pos, st, parseTime).Ok?
    ensures Payload(s, pos, st, parseTime).value.pos == Advance(|s|, pos + 8, PayloadRead(s, pos))
  {
    var vs, n, dl, tag := ValSizeAt(s, pos), CountAt(s, pos), DataLengthAt(s, pos), TagAt(s, pos);
    if tag == Scal {
      ScalesConsume(s, vs, n, 0, st.(scales := []), pos + 8);
    } else {
      ValuesConsume(s, tag, vs, dl, n, 0, st, pos + 8, parseTime);
    }
  }

  /** A record that is not skipped, once its payload has been read: the payload's state, and the cursor past the padding. */
  lemma RecordStepPayload(s: seq<byte>, pos: nat, st: ParseState, parseTime: seq<byte> -> Option<int>, c: Cursor)
    requires pos + 8 <= |s| && TypeAt(s, pos) != 0 && TagAt(s, pos) != Empt
    requires Payload(s, pos, st, parseTime) == Ok(c)
    ensures RecordStep(s, pos, st, parseTime) == Next(c.st, Advance(|s|, c.pos, PadLength(DataLengthAt(s, pos))))
  {
    assert !(|s| - pos < 8);
  }

  /** A record that is not skipped raises what its payload raises. */
  lemma RecordStepFail(s: seq<byte>, pos: nat, st: ParseState, parseTime: seq<byte> -> Option<int>, e: Error)
    requires pos + 8 <= |s| && TypeAt(s, pos) != 0 && TagAt(s, pos) != Empt
    requires Payload(s, pos, st, parseTime) == Err(e)
    ensures RecordStep(s, pos, st, parseTime) == Fail(e)
  {
    assert !(|s| - pos < 8);
  }

  /**
    Every record that is not skipped consumes its header, its payload (read
    once per value for GPSU), and the padding after data_length bytes, up to
    the end of the stream.
   */
  lemma RecordFraming(s: seq<byte>, pos: nat, st: ParseState, parseTime: seq<byte> -> Option<int>)
    requires pos + 8 <= |s| && TypeAt(s, pos) != 0 && TagAt(s, pos) != Empt
    requires RecordStep(s, pos, st, parseTime).Next?
    ensures RecordStep(s, pos, st, parseTime).pos
         == Advance(|s|, pos, 8 + PayloadRead(s, pos) + PadLength(DataLengthAt(s, pos)))
  {
    var payload, pad := PayloadRead(s, pos), PadLength(DataLengthAt(s, pos));
    assert Payload(s, pos, st, parseTime).Ok?;
    PayloadConsume(s, pos, st, parseTime);
    var c := Payload(s, pos, st, parseTime).value;
    RecordStepPayload(s, pos, st, parseTime, c);
    AdvanceAdvance(|s|, pos + 8, payload, pad);
    AdvanceAdvance(|s|, pos, 8, payload + pad);
  }

  /** Bytes a record takes when its payload is read once: header, payload, padding. */
  function RecordSize(s: seq<byte>, pos: nat): nat
    requires pos + 8 <= |s|
  {
    if TypeAt(s, pos) == 0 then 8
    else if TagAt(s, pos) == Empt then 12
    else 8 + DataLengthAt(s, pos) + PadLength(DataLengthAt(s, pos))
  }

  /** data_length plus its padding is a multiple of four. */
  lemma PaddedLength(dataLength: nat)
    ensures (dataLength + PadLength(dataLength)) % 4 == 0
  {
  }

  /**
    Except for a GPSU record with more than one value, a record consumes
    RecordSize bytes (or runs to the end of the stream), and RecordSize is a
    multiple of four: a cursor that starts a record on a four-byte boundary
    starts the next one on a four-byte boundary.
   */
  lemma RecordAligned(s: seq<byte>, pos: nat, st: ParseState, parseTime: seq<byte> -> Option<int>)
    requires pos + 8 <= |s|
    requires RecordStep(s, pos, st, parseTime).Next?
    requires !(TypeAt(s, pos) != 0 && TagAt(s, pos) == Gpsu && CountAt(s, pos) > 1)
    ensures RecordSize(s, pos) % 4 == 0
    ensures RecordStep(s, pos, st, parseTime).pos == Advance(|s|, pos, RecordSize(s, pos))
    ensures pos % 4 == 0 ==> RecordStep(s, pos, st, parseTime).pos % 4 == 0 || RecordStep(s, pos, st, parseTime).pos == |s|
  {
    var dl := DataLengthAt(s, pos);
    if TypeAt(s, pos) == 0 {
      SkippedRecords(s, pos, st, parseTime);
    } else if TagAt(s, pos) == Empt {
      SkippedRecords(s, pos, st, parseTime);
      AdvanceAdvance(|s|, pos, 8, 4);
    } else {
      PaddedLength(dl);
      RecordFraming(s, pos, st, parseTime);
      PayloadReadOnce(s, pos);
    }
    AlignedAdvance(|s|, pos, RecordSize(s, pos));
  }

  /** A read of a multiple of four bytes from a four-byte boundary ends on one, or at the end of the stream. */
  lemma AlignedAdvance(len: nat, pos: nat, n: nat)
    requires pos <= len && n % 4 == 0
    ensures pos % 4 == 0 ==> Advance(len, pos, n) % 4 == 0 || Advance(len, pos, n) == len
  {
  }

  /** Unless it is a GPSU record with several values, a payload reads data_length bytes. */
  lemma PayloadReadOnce(s: seq<byte>, pos: nat)
    requires pos + 8 <= |s|
    requires !(TagAt(s, pos) == Gpsu && CountAt(s, pos) > 1)
    ensures PayloadRead(s, pos) == DataLengthAt(s, pos)
  {
    var vs, n := ValSizeAt(s, pos), CountAt(s, pos);
    if TagAt(s, pos) == Gpsu {
      if n == 0 {
        assert DataLengthAt(s, pos) == vs * 0 == 0;
      } else {
        assert Times(1, DataLengthAt(s, pos)) == DataLengthAt(s, pos) + Times(0, DataLengthAt(s, pos));
      }
    } else {
      TimesIsProduct(n, vs);
      assert PayloadRead(s, pos) == n * vs == vs * n;
    }
  }

  // ----- GPS5 ----------------------------------------------------------------

  /** The samples the n GPS5 values at `pos` give under usable scales. */
  function Gps5Samples(s: seq<byte>, pos: nat, n: nat, scales: seq<nat>): seq<Sample>
    requires pos + 20 * n <= |s| && Usable(scales)
    decreases n
  {
    if n == 0 then [] else [Decode(s[pos..pos + 20], scales)] + Gps5Samples(s, pos + 20, n - 1, scales)
  }

  /** The state with `xs` appended to the samples of the open session. */
  function WithSamples(st: ParseState, xs: seq<Sample>): ParseState
    requires st.current.Some?
  {
    st.(current := Some(st.current.value.(samples := st.current.value.samples + xs)))
  }

  /** One 20-byte GPS5 value: appended to the open session when the gate is open, ignored when it is shut. */
  lemma Gps5Step(s: seq<byte>, dataLength: nat, st: ParseState, pos: nat, parseTime: seq<byte> -> Option<int>)
    requires pos + 20 <= |s|
    requires st.ok == Gate(st.fix, st.accuracy)
    requires st.ok ==> Usable(st.scales) && st.current.Some?
    ensures ValueStep(s, Gps5, 20, dataLength, st, pos, parseTime)
         == Ok(if st.ok then WithSamples(st, [Decode(s[pos..pos + 20], st.scales)]) else st)
  {
    assert PerValue(Gps5, 20, dataLength) == 20;
  }

  /**
    The GPS5 values from the i-th on, when the stream holds them: with the
    gate open every one is appended to the open session, with the gate shut
    none is, and nothing else changes.
   */
  lemma {:induction false} Gps5Values(
    s: seq<byte>, count: nat, i: nat, st: ParseState, pos: nat, parseTime: seq<byte> -> Option<int>)
    requires i <= count && pos + 20 * (count - i) <= |s|
    requires st.ok == Gate(st.fix, st.accuracy)
    requires st.ok ==> Usable(st.scales) && st.current.Some?
    ensures ValuesFrom(s, Gps5, 20, 20 * count, count, i, st, pos, parseTime)
         == Ok(Cursor(if st.ok then WithSamples(st, Gps5Samples(s, pos, count - i, st.scales)) else st,
                      pos + 20 * (count - i)))
    decreases count - i
  {
    if i < count {
      var n := count - i;
      Gps5Step(s, 20 * count, st, pos, parseTime);
      assert PerValue(Gps5, 20, 20 * count) == 20;
      if st.ok {
        var d := Decode(s[pos..pos + 20], st.scales);
        var st1 := WithSamples(st, [d]);
        Gps5Values(s, count, i + 1, st1, pos + 20, parseTime);
        var rest := Gps5Samples(s, pos + 20, n - 1, st.scales);
        assert Gps5Samples(s, pos, n, st.scales) == [d] + rest;
        assert st.current.value.samples + [d] + rest == st.current.value.samples + ([d] + rest);
      } else {
        Gps5Values(s, count, i + 1, st, pos + 20, parseTime);
      }
    } else if st.ok {
      assert st.current.value.samples + [] == st.current.value.samples;
    }
  }

  /**
    A GPS5 record of 20-byte values that the stream holds in full: a sample is
    recorded for every value exactly when the fix is 2 or 3 and the accuracy is
    under 500, and the cursor moves past 8 + 20 * count bytes, which needs no
    padding.
   */
  lemma Gps5Record(s: seq<byte>, pos: nat, st: ParseState, parseTime: seq<byte> -> Option<int>)
    requires pos + 8 <= |s| && TypeAt(s, pos) != 0 && TagAt(s, pos) == Gps5 && ValSizeAt(s, pos) == 20
    requires pos + 8 + 20 * CountAt(s, pos) <= |s|
    requires Consistent(st)
    requires Gate(st.fix, st.accuracy) ==> Usable(st.scales) && st.current.Some?
    ensures RecordStep(s, pos, st, parseTime)
         == Next(if Gate(st.fix, st.accuracy) then WithSamples(st, Gps5Samples(s, pos + 8, CountAt(s, pos), st.scales)) else st,
                 pos + 8 + 20 * CountAt(s, pos))
  {
    var n := CountAt(s, pos);
    Gps5Values(s, n, 0, st, pos + 8, parseTime);
    assert 20 * n % 4 == 0;
  }

  /**
    The ways a GPS5 record with at least one value raises: a value size other
    than 20, a stream too short for the first value, and a sample that passes
    the gate while no GPSU has opened a session.
   */
  lemma Gps5Errors(s: seq<byte>, pos: nat, st: ParseState, parseTime: seq<byte> -> Option<int>)
    requires pos + 8 <= |s| && TypeAt(s, pos) != 0 && TagAt(s, pos) == Gps5 && CountAt(s, pos) >= 1
    ensures ValSizeAt(s, pos) != 20 ==> RecordStep(s, pos, st, parseTime) == Fail(Gps5SizeError(ValSizeAt(s, pos)))
    ensures ValSizeAt(s, pos) == 20 && pos + 28 > |s| ==> RecordStep(s, pos, st, parseTime) == Fail(StructError)
    ensures ValSizeAt(s, pos) == 20 && pos + 28 <= |s| && st.ok && Usable(st.scales) && st.current.None?
        ==> RecordStep(s, pos, st, parseTime) == Fail(NoSessionError)
  {
  }

  // ----- GPSU ----------------------------------------------------------------

  /**
    A GPSU record with one value stores the open session if it holds a
    sample, opens a new empty session at the timestamp its payload spells (or
    raises if it spells none), and recomputes the gate.
   */
  lemma GpsuRecord(s: seq<byte>, pos: nat, st: ParseState, parseTime: seq<byte> -> Option<int>)
    requires pos + 8 <= |s| && TypeAt(s, pos) != 0 && TagAt(s, pos) == Gpsu && CountAt(s, pos) == 1
    ensures var vs := ValSizeAt(s, pos);
      var p := Advance(|s|, pos + 8, vs);
      RecordStep(s, pos, st, parseTime)
        == match parseTime(s[pos + 8..p])
           case None => Fail(TimestampError)
           case Some(t) =>
             Next(st.(sessions := Stored(st), current := Some(Session(t, [])), ok := Gate(st.fix, st.accuracy)),
                  Advance(|s|, p, PadLength(vs)))
  {
    var vs := ValSizeAt(s, pos);
    assert DataLengthAt(s, pos) == vs * 1 == vs;
    var p := Advance(|s|, pos + 8, vs);
    assert PerValue(Gpsu, vs, vs) == vs;
    match parseTime(s[pos + 8..p])
    case None =>
      assert ValueStep(s, Gpsu, vs, vs, st, pos + 8, parseTime) == Err(TimestampError);
      assert Payload(s, pos, st, parseTime) == Err(TimestampError);
      RecordStepFail(s, pos, st, parseTime, TimestampError);
    case Some(t) =>
      var st1 := st.(sessions := Stored(st), current := Some(Session(t, [])), ok := Gate(st.fix, st.accuracy));
      assert ValueStep(s, Gpsu, vs, vs, st, pos + 8, parseTime) == Ok(st1);
      assert ValuesFrom(s, Gpsu, vs, vs, 1, 1, st1, p, parseTime) == Ok(Cursor(st1, p));
      assert Payload(s, pos, st, parseTime) == Ok(Cursor(st1, p));
      RecordStepPayload(s, pos, st, parseTime, Cursor(st1, p));
  }

  // ----- GPSF, GPSP and other labels ------------------------------------------

  /**
    A GPSF record with one value reads val_size bytes and unpacks them as
    '>I': the fix when exactly four bytes came back, whatever val_size says,
    and a StructError otherwise. The gate is recomputed from the new fix, and
    the cursor moves past the padding.
   */
  lemma GpsfRecord(s: seq<byte>, pos: nat, st: ParseState, parseTime: seq<byte> -> Option<int>)
    requires pos + 8 <= |s| && TypeAt(s, pos) != 0 && TagAt(s, pos) == Gpsf && CountAt(s, pos) == 1
    ensures var vs := ValSizeAt(s, pos);
      var p := Advance(|s|, pos + 8, vs);
      var b := s[pos + 8..p];
      RecordStep(s, pos, st, parseTime)
        == if |b| == 4 then Next(st.(fix := BeUint32(b), ok := Gate(BeUint32(b), st.accuracy)), Advance(|s|, p, PadLength(vs)))
           else Fail(StructError)
  {
    var vs := ValSizeAt(s, pos);
    assert DataLengthAt(s, pos) == vs * 1 == vs;
    var p := Advance(|s|, pos + 8, vs);
    var b := s[pos + 8..p];
    if |b| == 4 {
      var st1 := st.(fix := BeUint32(b), ok := Gate(BeUint32(b), st.accuracy));
      assert ValueStep(s, Gpsf, vs, vs, st, pos + 8, parseTime) == Ok(st1);
      assert ValuesFrom(s, Gpsf, vs, vs, 1, 1, st1, p, parseTime) == Ok(Cursor(st1, p));
      assert Payload(s, pos, st, parseTime) == Ok(Cursor(st1, p));
      RecordStepPayload(s, pos, st, parseTime, Cursor(st1, p));
    } else {
      assert ValueStep(s, Gpsf, vs, vs, st, pos + 8, parseTime) == Err(StructError);
      assert Payload(s, pos, st, parseTime) == Err(StructError);
      RecordStepFail(s, pos, st, parseTime, StructError);
    }
  }

  /**
    A GPSP record with one value reads val_size bytes and unpacks them as
    '>H': the accuracy when exactly two bytes came back, a StructError
    otherwise. The gate is recomputed from the new accuracy, and the cursor
    moves past the padding.
   */
  lemma GpspRecord(s: seq<byte>, pos: nat, st: ParseState, parseTime: seq<byte> -> Option<int>)
    requires pos + 8 <= |s| && TypeAt(s, pos) != 0 && TagAt(s, pos) == Gpsp && CountAt(s, pos) == 1
    ensures var vs := ValSizeAt(s, pos);
      var p := Advance(|s|, pos + 8, vs);
      var b := s[pos + 8..p];
      RecordStep(s, pos, st, parseTime)
        == if |b| == 2 then Next(st.(accuracy := BeUint16(b), ok := Gate(st.fix, BeUint16(b))), Advance(|s|, p, PadLength(vs)))
           else Fail(StructError)
  {
    var vs := ValSizeAt(s, pos);
    assert DataLengthAt(s, pos) == vs * 1 == vs;
    var p := Advance(|s|, pos + 8, vs);
    var b := s[pos + 8..p];
    if |b| == 2 {
      var st1 := st.(accuracy := BeUint16(b), ok := Gate(st.fix, BeUint16(b)));
      assert ValueStep(s, Gpsp, vs, vs, st, pos + 8, parseTime) == Ok(st1);
      assert ValuesFrom(s, Gpsp, vs, vs, 1, 1, st1, p, parseTime) == Ok(Cursor(st1, p));
      assert Payload(s, pos, st, parseTime) == Ok(Cursor(st1, p));
      RecordStepPayload(s, pos, st, parseTime, Cursor(st1, p));
    } else {
      assert ValueStep(s, Gpsp, vs, vs, st, pos + 8, parseTime) == Err(StructError);
      assert Payload(s, pos, st, parseTime) == Err(StructError);
      RecordStepFail(s, pos, st, parseTime, StructError);
    }
  }

  /** The values of a record with a label the reader ignores: skipped val_size bytes at a time, the state unchanged. */
  lemma {:induction false} OtherValues(
    s: seq<byte>, valSize: nat, dataLength: nat, count: nat, i: nat,
    st: ParseState, pos: nat, parseTime: seq<byte> -> Option<int>)
    requires i <= count && pos <= |s| && Consistent(st)
    ensures ValuesFrom(s, Other, valSize, dataLength, count, i, st, pos, parseTime)
         == Ok(Cursor(st, Advance(|s|, pos, Times(count - i, valSize))))
    decreases count - i
  {
    if i < count {
      assert ValueStep(s, Other, valSize, dataLength, st, pos, parseTime) == Ok(st);
      OtherValues(s, valSize, dataLength, count, i + 1, st, Advance(|s|, pos, valSize), parseTime);
      AdvanceAdvance(|s|, pos, valSize, Times(count - (i + 1), valSize));
      Peel(count, i, valSize);
    }
  }

  /**
    A record with a label the reader ignores leaves a consistent state as it
    is and moves the cursor past its header, its data_length bytes and the
    padding, up to the end of the stream.
   */
  lemma OtherRecord(s: seq<byte>, pos: nat, st: ParseState, parseTime: seq<byte> -> Option<int>)
    requires pos + 8 <= |s| && TypeAt(s, pos) != 0 && TagAt(s, pos) == Other && Consistent(st)
    ensures var dl := DataLengthAt(s, pos);
      RecordStep(s, pos, st, parseTime) == Next(st, Advance(|s|, pos, 8 + dl + PadLength(dl)))
  {
    var vs, n, dl := ValSizeAt(s, pos), CountAt(s, pos), DataLengthAt(s, pos);
    OtherValues(s, vs, dl, n, 0, st, pos + 8, parseTime);
    TimesIsProduct(n, vs);
    var p := Advance(|s|, pos + 8, dl);
    assert Payload(s, pos, st, parseTime) == Ok(Cursor(st, p));
    RecordStepPayload(s, pos, st, parseTime, Cursor(st, p));
    AdvanceAdvance(|s|, pos + 8, dl, PadLength(dl));
    AdvanceAdvance(|s|, pos, 8, dl + PadLength(dl));
  }

  // ----- Invariants of the parse ----------------------------------------------

  /** One value keeps the state consistent, keeps the scales, and only a GPSU value adds stored sessions. */
  lemma ValueStepKeeps(
    s: seq<byte>, tag: Tag, valSize: nat, dataLength: nat,
    st: ParseState, pos: nat, parseTime: seq<byte> -> Option<int>)
    requires pos <= |s| && Consistent(st)
    requires ValueStep(s, tag, valSize, dataLength, st, pos, parseTime).Ok?
    ensures var st' := ValueStep(s, tag, valSize, dataLength, st, pos, parseTime).value;
      && Consistent(st') && st'.scales == st.scales && st.sessions <= st'.sessions
      && (tag != Gpsu ==> st'.sessions == st.sessions)
  {
    if tag == Gpsu {
      var st' := ValueStep(s, tag, valSize, dataLength, st, pos, parseTime).value;
      assert st'.sessions == Stored(st);
      forall k | 0 <= k < |st'.sessions|
        ensures st'.sessions[k].samples != []
      {
        if k < |st.sessions| {
          assert st'.sessions[k] == st.sessions[k];
        }
      }
    }
  }

  /** The values of a record keep the state consistent and the scales, and only GPSU adds stored sessions. */
  lemma {:induction false} ValuesKeep(
    s: seq<byte>, tag: Tag, valSize: nat, dataLength: nat, count: nat, i: nat,
    st: ParseState, pos: nat, parseTime: seq<byte> -> Option<int>)
    requires i <= count && pos <= |s| && Consistent(st)
    requires ValuesFrom(s, tag, valSize, dataLength, count, i, st, pos, parseTime).Ok?
    ensures var st' := ValuesFrom(s, tag, valSize, dataLength, count, i, st, pos, parseTime).value.st;
      && Consistent(st') && st'.scales == st.scales && st.sessions <= st'.sessions
      && (tag != Gpsu ==> st'.sessions == st.sessions)
    decreases count - i
  {
    if i < count {
      var st1 := ValueStep(s, tag, valSize, dataLength, st, pos, parseTime).value;
      ValueStepKeeps(s, tag, valSize, dataLength, st, pos, parseTime);
      ValuesKeep(s, tag, valSize, dataLength, count, i + 1, st1,
                 Advance(|s|, pos, PerValue(tag, valSize, dataLength)), parseTime);
    }
  }

  /**
    A record keeps the state consistent, never drops a stored session, and
    only a GPSU record stores one; only a SCAL record changes the scales.
   */
  lemma StepKeeps(s: seq<byte>, pos: nat, st: ParseState, parseTime: seq<byte> -> Option<int>)
    requires pos <= |s| && Consistent(st)
    requires RecordStep(s, pos, st, parseTime).Next?
    ensures var st' := RecordStep(s, pos, st, parseTime).st;
      && Consistent(st') && st.sessions <= st'.sessions
      && (!(TypeAt(s, pos) != 0 && TagAt(s, pos) == Gpsu) ==> st'.sessions == st.sessions)
      && (!(TypeAt(s, pos) != 0 && TagAt(s, pos) == Scal) ==> st'.scales == st.scales)
  {
    if TypeAt(s, pos) != 0 && TagAt(s, pos) != Empt {
      var vs, n, tag := ValSizeAt(s, pos), CountAt(s, pos), TagAt(s, pos);
      if tag == Scal {
        ScalesConsume(s, vs, n, 0, st.(scales := []), pos + 8);
      } else {
        ValuesKeep(s, tag, vs, DataLengthAt(s, pos), n, 0, st, pos + 8, parseTime);
      }
    }
  }

  /**
    From a consistent state the parse ends, when it does not raise, with every
    session already stored still stored, in order, and every stored session
    holding at least one sample.
   */
  lemma {:induction false} ParseStoresNonEmpty(s: seq<byte>, pos: nat, st: ParseState, parseTime: seq<byte> -> Option<int>)
    requires pos <= |s| && Consistent(st)
    ensures var r := ParseFrom(s, pos, st, parseTime);
      r.Ok? ==> AllNonEmpty(r.value) && st.sessions <= r.value
    decreases |s| - pos
  {
    match RecordStep(s, pos, st, parseTime)
    case Stop =>
    case Fail(_) =>
    case Next(st', pos') =>
      StepKeeps(s, pos, st, parseTime);
      ParseStoresNonEmpty(s, pos', st', parseTime);
  }

  /** Fewer than eight bytes left: the parse stops without error and returns the sessions stored so far. */
  lemma ShortTailStops(s: seq<byte>, pos: nat, st: ParseState, parseTime: seq<byte> -> Option<int>)
    requires pos <= |s| && |s| - pos < 8
    ensures ParseFrom(s, pos, st, parseTime) == Ok(st.sessions)
  {
  }
}
