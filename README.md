# gopro2gpx: the GPMF telemetry reader, modelled in Dafny

gopro2gpx turns the GPS track that a GoPro camera embeds in its videos into a
GPX file. Its core is `gopro_binary_to_csv` (gopro2gpx.py:24-138), which works
in two phases:

1. **The record reader.** A loop walks a byte cursor through the GPMF
   telemetry stream, GoPro's tag/length/value format. Each record has an
   eight-byte header: a four-byte label, a type byte, a value size and a
   big-endian 16-bit value count. The payload follows, padded to four bytes.
   The loop dispatches on the label:
   - SCAL replaces the scale divisors;
   - GPSU closes the open session and opens one at a new timestamp;
   - GPSF sets the GPS fix and GPSP sets the accuracy;
   - GPS5 appends a sample to the open session while the recording gate is open;
   - EMPT, records of type zero and other labels are skipped.

   Sessions that hold at least one sample are stored.
2. **The interpolation.** Every sample of every stored session gets a
   timestamp. Sample j of session i is stamped `start_i + j * step_i`, where
   `step_i` is the session's span divided by its sample count. The span of a
   session runs to the next session's start, or one second past its own start
   for the last session.

The model has six modules:

- `GpmfTypes`: the values.
  - the parse state that outlives each record;
  - sessions, samples and points;
  - the errors the code can raise;
  - the fixed-width big-endian decoders of struct's `>H`, `>I` and `>i`;
  - the label classification.
- `GpmfReader`: the reader as functions over the whole byte stream and a cursor.
  - `ValueStep`: one value.
  - `ValuesFrom` and `ScalesFrom`: the values of a record.
  - `RecordStep`: one record.
  - `ParseFrom`: all records to the end of the stream.
- `Interpolation`: the timestamps.
  - `DivRound`: timedelta division, rounded half to even.
  - `SessionPoints` and `Interpolate`: the points of one session and of all sessions.
- `GoPro2Gpx`: the code as it runs, as methods over an `array<byte>`.
  - `ReadSessions`: the record loop.
  - `ReadHeader`, `ReadPayload`, `ReadScales`, `ReadValues`, `ReadValue` and `SkipPadding`: the steps inside one record.
  - `InterpolateTimestamps`: the interpolation loop.
  - `GoproBinaryToCsv`: the whole function.

  Each method is proved to compute exactly what the function of the same step specifies.
- `GpmfProperties`: what the reader functions do.
  - framing and four-byte alignment;
  - the SCAL, GPS5 and GPSU records, with their errors;
  - the state invariant;
  - the stored sessions.
- `Scenarios`: what the model is proved to do on concrete streams.

Some of the code's behaviour is easy to misread, and the model follows the code:

- **Where a stream may end.** Only the header read sits inside the `try` (gopro2gpx.py:46-50), and a read at the end of the stream returns fewer bytes instead of failing. A stream that ends inside a SCAL or GPS5 payload makes `struct.unpack` raise (`StructError`). A GPSF or GPSP value reads val_size bytes but unpacks them as '>I' or '>H', so it raises exactly when the read does not return four or two bytes: with val_size 8 and four bytes left, the read returns four and the parse goes on (`GpmfProperties.GpsfRecord`, `GpmfProperties.GpspRecord`). A stream that ends inside an EMPT record's four bytes, inside the payload of a label the reader ignores, or inside padding stops the parse silently at the next header read, like a stream that ends between records (`GpmfProperties.OtherRecord`, `GpmfProperties.ShortTailStops`).
- **A GPSU record reads data_length bytes per value** (gopro2gpx.py:94). With more than one value it reads more than it declares, and the cursor can leave the four-byte grid. `Scenarios.GpsuOverread` shows a GPSU record of two nine-byte values: it declares 28 bytes, each value reads a full 18-byte timestamp, and the cursor ends at byte 46, two bytes off the grid. The first session it opens is dropped empty. `GpmfProperties.RecordAligned` proves alignment for every other record.
- **The open session at the end of the stream is never stored.** In a recording with one GPSU before two samples and one GPSU after them, only the first session is stored. That session is then the last one, so it spans one second. Its second point is stamped half a second after its first (`Scenarios.RecordingPoints`), not at the second timestamp's distance. The samples keep their raw values and divisors; with the scales `[1, 1, 1, 1]` that the recording sets, latitude 100000 is divided by 1.
- **A last point can fall past the end of its span.** The step is rounded to the nearest microsecond. With 1800 samples in the last session, the step is 556 µs and the last sample lands 1000244 µs after the start (`Scenarios.LastPointPastEnd`).
- **Labels are matched by substring of `str(bytes)`.** A four-byte label contains "SCAL", "GPS5" and so on in its printed form exactly when its bytes are those four ASCII letters. The model matches the four bytes (`GpmfTypes.Classify`).
- **The missing-timestamp fallback (gopro2gpx.py:121-129) is dead code.** Every stored session was opened by a GPSU with a timestamp. In the model, a `Session` always carries its `start`, and `GpmfProperties.ParseStoresNonEmpty` proves that every stored session holds a sample.

## Model

| member | source | states |
|---|---|---|
| GpmfTypes.BeInt32 | gopro2gpx.py:82-83 | a '>i' field is the two's-complement reading of its four bytes: in the signed 32-bit range, equal to the unsigned reading modulo 2^32, and negative exactly when the top bit is set |
| GpmfReader.Advance | gopro2gpx.py:58 | a read of n bytes moves the cursor by n, or to the end of the stream when fewer remain, never backwards |
| GpmfReader.RecordStep | gopro2gpx.py:45-115 | a record that does not end the loop moves the cursor past at least its eight header bytes and never past the end of the stream |
| GpmfProperties.AdvanceAdvance | gopro2gpx.py:58 | two consecutive reads move the cursor as one read of their combined length |
| GpmfProperties.SkippedRecords | gopro2gpx.py:53-59 | a record of type zero consumes only its 8 header bytes, an EMPT record 8 + 4 bytes (clamped at the end), and neither changes the parse state |
| GpmfProperties.ShortTailStops | gopro2gpx.py:45-50 | with fewer than 8 bytes left the loop ends without error and returns the sessions stored so far |
| GpmfProperties.ValuesConsume | gopro2gpx.py:76-107 | the values of a non-SCAL record that are read without error consume count times the per-value read (val_size, or data_length for GPSU), clamped at the end |
| GpmfProperties.ScaleListLength | gopro2gpx.py:67-72 | when the stream holds them, a SCAL record reads exactly count scale values |
| GpmfProperties.ScaleListAt | gopro2gpx.py:67-72 | the k-th scale is the big-endian unsigned value of the val_size bytes k values past the payload start |
| GpmfProperties.ScalesRead | gopro2gpx.py:68-72 | with val_size 2 or 4 and the bytes present, the SCAL loop appends the values in order, consumes count * val_size bytes and changes nothing else |
| GpmfProperties.ScalesConsume | gopro2gpx.py:68-72 | a SCAL loop that does not raise changes only the scale list and consumes count * val_size bytes |
| GpmfProperties.ScalesShort | gopro2gpx.py:69-72 | a SCAL loop that runs out of bytes before its last value raises a struct error |
| GpmfProperties.ScalRecord | gopro2gpx.py:65-74 | a SCAL record resets the scales; with no values it leaves them empty; with values and a val_size other than 2 or 4 it raises; with too few bytes it raises; otherwise the scales become exactly the count values read, the gate, fix, accuracy and sessions are untouched, and the cursor passes the padding |
| GpmfProperties.PayloadConsume | gopro2gpx.py:65-107 | a payload read without error consumes count values of the per-value read |
| GpmfProperties.RecordFraming | gopro2gpx.py:60-115 | a record consumes its 8 header bytes, its payload, and the padding that follows data_length bytes |
| GpmfProperties.PaddedLength | gopro2gpx.py:111-115 | data_length plus its padding is a multiple of four |
| GpmfProperties.AlignedAdvance | gopro2gpx.py:111-115 | a read of a multiple of four bytes from a four-byte boundary ends on a boundary or at the end of the stream |
| GpmfProperties.PayloadReadOnce | gopro2gpx.py:62-63 | except for a GPSU record with several values, a payload reads exactly data_length = val_size * count bytes |
| GpmfProperties.RecordAligned | gopro2gpx.py:53-115 | except for a GPSU record with several values, a record consumes 8 + data_length rounded up to four bytes (12 for EMPT, 8 for type zero), a multiple of four, so a record starting on a four-byte boundary leaves the cursor on one or at the end |
| GpmfProperties.Gps5Step | gopro2gpx.py:79-88 | one 20-byte GPS5 value appends its decoded sample to the open session when the gate is open and changes nothing when it is shut |
| GpmfProperties.Gps5Values | gopro2gpx.py:76-88 | GPS5 values that the stream holds are all appended, in order, when the gate is open and all ignored when it is shut |
| GpmfProperties.Gps5Record | gopro2gpx.py:76-88 | a GPS5 record of 20-byte values records a sample for each value exactly when the fix is 2 or 3 and the accuracy is under 500, and moves the cursor by 8 + 20 * count |
| GpmfProperties.Gps5Errors | gopro2gpx.py:79-88 | a GPS5 record with values raises on a val_size other than 20, on a stream too short for the first value, and on a gated-in sample before any GPSU |
| GpmfProperties.GpsuRecord | gopro2gpx.py:89-95 | a one-value GPSU record stores the open session only if it holds a sample, opens an empty session at the payload's timestamp (or raises if the payload is not one), and recomputes the gate |
| GpmfProperties.GpsfRecord | gopro2gpx.py:96-105 | a one-value GPSF record sets the fix to the '>I' reading of the bytes its val_size read returns when exactly four come back, recomputes the gate from the new fix and moves past the padding; any other number of bytes raises StructError |
| GpmfProperties.GpspRecord | gopro2gpx.py:100-105 | a one-value GPSP record sets the accuracy to the '>H' reading when exactly two bytes come back, recomputes the gate from the new accuracy and moves past the padding; any other number of bytes raises StructError |
| GpmfProperties.OtherValues | gopro2gpx.py:104-108 | the values of a record with an ignored label each skip val_size bytes and leave a consistent state unchanged |
| GpmfProperties.OtherRecord | gopro2gpx.py:60-115 | a record with an ignored label leaves a consistent state unchanged and moves the cursor past 8 + data_length bytes and the padding, clamped at the end of the stream |
| GpmfProperties.ValueStepKeeps | gopro2gpx.py:76-109 | one value keeps the gate equal to the fix-and-accuracy test and every stored session non-empty, keeps the scales, and only GPSU stores sessions |
| GpmfProperties.ValuesKeep | gopro2gpx.py:76-109 | the same for all the values of a record |
| GpmfProperties.StepKeeps | gopro2gpx.py:45-115 | a record keeps that invariant and every stored session; only a GPSU record stores one; only a SCAL record changes the scales |
| GpmfProperties.ParseStoresNonEmpty | gopro2gpx.py:89-95 | a parse that does not raise keeps every session already stored, in order, and returns only sessions that hold a sample |
| Interpolation.DivRound | gopro2gpx.py:134 | timedelta / int: the quotient is within half the divisor of the exact one, ties go to the even quotient, and a non-negative span gives a non-negative step |
| Interpolation.PointsUpToLength | gopro2gpx.py:120-137 | the first n sessions give one point per sample |
| Interpolation.PointsUpToAt | gopro2gpx.py:120-137 | sample j of session i sits after the samples of the earlier sessions, stamped start + j * step |
| Interpolation.InterpolateAt | gopro2gpx.py:119-138 | the output has exactly one point per stored sample, in session-then-sample order; sample j of session i gets start_i + j * round((end_i - start_i) / k_i), where end_i is the next session's start, or start_i plus one second for the last |
| Interpolation.SessionTimesNondecreasing | gopro2gpx.py:134-136 | within a session whose end is not before its start, timestamps never decrease |
| GoPro2Gpx.ReadHeader | gopro2gpx.py:47-63 | the header fields are the label class, the type byte, val_size and the big-endian 16-bit count, and data_length = val_size * count |
| GoPro2Gpx.ReadScales | gopro2gpx.py:67-74 | the SCAL loop computes exactly the scale-list step of the reader |
| GoPro2Gpx.ReadValue | gopro2gpx.py:77-109 | one value's dispatch on GPS5, GPSU, GPSF, GPSP or another label, then the gate, computes exactly ValueStep and moves the cursor by the per-value read |
| GoPro2Gpx.ReadValues | gopro2gpx.py:76-109 | the value loop computes exactly the reader's values of the record |
| GoPro2Gpx.ReadPayload | gopro2gpx.py:65-109 | the SCAL-or-values dispatch computes exactly the record's payload |
| GoPro2Gpx.SkipPadding | gopro2gpx.py:111-115 | the padding read moves the cursor to the next four-byte boundary after data_length bytes, clamped at the end |
| GoPro2Gpx.ReadSessions | gopro2gpx.py:35-115 | the record loop returns exactly the sessions (or the error) of the reader run from the start state |
| GoPro2Gpx.InterpolateTimestamps | gopro2gpx.py:119-138 | the interpolation loop returns exactly the interpolated points |
| GoPro2Gpx.GoproBinaryToCsv | gopro2gpx.py:35-138 | the whole function returns the interpolated points of the stored sessions, or the error the reader raises |
| Scenarios.ScalOnes | gopro2gpx.py:65-72 | a SCAL record of four '>H' ones sets the scales to [1, 1, 1, 1] and ends 16 bytes on |
| Scenarios.StampRecord | gopro2gpx.py:89-95 | a GPSU record of one 16-byte timestamp stores the open session if it holds a sample and opens an empty one at that time |
| Scenarios.FixRecord | gopro2gpx.py:96-99 | a GPSF record of the value 3 sets a 3D fix and recomputes the gate |
| Scenarios.AccuracyRecord | gopro2gpx.py:100-115 | a GPSP record of the value 100 sets the accuracy, recomputes the gate, and skips two bytes of padding |
| Scenarios.SamplesRecord | gopro2gpx.py:76-88 | a GPS5 record of two values, read with the gate open and scales of one, appends both raw samples to the open session |
| Scenarios.LaidOutSessions | gopro2gpx.py:45-115 | a stream of SCAL, GPSU, GPSF 3, GPSP 100, two GPS5 values and a second GPSU, wherever its bytes come from, stores one session holding both samples |
| Scenarios.LaidOutSetup | gopro2gpx.py:45-115 | in that stream, the SCAL, GPSU, GPSF and GPSP records leave an open empty session at t0, a 3D fix, an accuracy of 100 and the gate open |
| Scenarios.LaidOutSamples | gopro2gpx.py:76-95 | then the GPS5 record fills the session with both samples, and the second GPSU stores it and opens a session that the end of the stream discards |
| Scenarios.LaidOutClose | gopro2gpx.py:89-95 | a GPSU record at the tail of a stream stores the open session when it holds a sample, and the session it opens is never stored |
| Scenarios.RecordingSessions | gopro2gpx.py:65-109 | a stream of SCAL, GPSU, GPSF 3, GPSP 100, two GPS5 values and a second GPSU stores one session holding both samples |
| Scenarios.RecordingPoints | gopro2gpx.py:119-138 | that stream gives two points, half a second apart, since its only stored session is the last one |
| Scenarios.TwoSamplePoints | gopro2gpx.py:130-136 | a last session of two samples stamps them at its start and half a second later |
| Scenarios.GpsuOverreads | gopro2gpx.py:89-115 | wherever a stream holds a GPSU record of two nine-byte values followed by two 18-byte payloads that parse as timestamps, the record (declared as 28 bytes) consumes 46, stores the open session if it holds a sample, and leaves only the second timestamp's session open |
| Scenarios.GpsuOverread | gopro2gpx.py:89-115 | on the stream holding "210615120000.00000" and "210615120001.00000" after that header, the cursor ends at byte 46, which is 2 modulo 4, while the record declares 28 bytes |
| Scenarios.LastPointPastEnd | gopro2gpx.py:130-136 | with 1800 samples in the last session its last point is stamped 1000244 µs after the start, past the one-second end |

## Left out

- `dump_metadata` (gopro2gpx.py:20-22) is not part of this model. It runs ffmpeg to extract the telemetry track. The model starts from the extracted bytes.
- The command-line block (gopro2gpx.py:166-180) is not part of this model. This includes the concatenation of several files' points in argument order.
- `make_gpx` (gopro2gpx.py:140-164) is not part of this model. It is text formatting, including its swap of the latitude and longitude attributes.
- The float divisions of latitude, longitude and speed by their scales are not computed. A `Sample` keeps each raw integer with its divisor. A zero divisor is the `ZeroScaleError` that Python's division raises, and a missing scale index is `ScaleIndexError`.
- `datetime.strptime` on the stripped and decoded GPSU payload is the parameter `parseTime`. It maps payload bytes to a microsecond count, or to `None` when Python would raise; `None` becomes `TimestampError`.
- Datetimes are integer microsecond counts. The overflow of `datetime` past year 9999 is not modelled.
- The text of the exception messages is not modelled. Each distinct raise is an `Error` constructor.
- GoPro2Gpx.InterpolateTimestamps builds new `Point` values rather than writing a `timestamp` key into each sample dictionary. The aliasing between the stored sessions and the returned list is therefore not captured.
- GpmfProperties.GpsuRecord states only records with exactly one value. A GPSU record with several values is covered by the definition `ValuesFrom` and, for two nine-byte values, by `Scenarios.GpsuOverreads`.
- GpmfProperties.Gps5Record states only records that the stream holds in full. Truncation is stated only for the first value, by `GpmfProperties.Gps5Errors`.
- GpmfProperties.RecordAligned excludes GPSU records with more than one value, because the code does not keep them aligned.
