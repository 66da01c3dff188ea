/**
  The second phase of gopro_binary_to_csv: every stored session spreads its
  samples evenly from its own start to the next session's start (one second
  for the last session), and the sessions are flattened into one list of
  timestamped points. Timestamps are microsecond counts, and a time span
  divided by a sample count is rounded to the nearest microsecond, ties to
  even, as Python's timedelta division does.
 */
module Interpolation {
  import opened GpmfTypes

  /** `a / b` rounded to the nearest integer, ties to the even neighbour. */
  function DivRound(a: int, b: int): (q: int)
    requires b > 0
    ensures -b <= 2 * (a - b * q) <= b
    ensures (2 * (a - b * q) == b || 2 * (a - b * q) == -b) ==> q % 2 == 0
    ensures a >= 0 ==> q >= 0
  {
    var q0, r := a / b, a % b;
    EuclidStep(a, b, q0, r);
    if 2 * r > b || (2 * r == b && q0 % 2 == 1) then q0 + 1 else q0
  }

  /** The Euclidean quotient and remainder, and the remainder left by the next quotient up. */
  lemma EuclidStep(a: int, b: int, q0: int, r: int)
    requires b > 0 && q0 == a / b && r == a % b
    ensures a - b * q0 == r && 0 <= r < b
    ensures a - b * (q0 + 1) == r - b
    ensures a >= 0 ==> q0 >= 0
  {
    assert b * (q0 + 1) == b * q0 + b;
  }

  /** The end of session i's span: the next session's start, or one second after its own. */
  function SessionEnd(data: seq<Session>, i: nat): int
    requires i < |data|
  {
    if i == |data| - 1 then data[i].start + OneSecond else data[i + 1].start
  }

  /** The time between two consecutive samples of session i. */
  function StepOf(data: seq<Session>, i: nat): int
    requires i < |data| && AllNonEmpty(data)
  {
    DivRound(SessionEnd(data, i) - data[i].start, |data[i].samples|)
  }

  /** The points of session i: sample j at the session start plus j steps. */
  function SessionPoints(data: seq<Session>, i: nat): seq<Point>
    requires i < |data| && AllNonEmpty(data)
  {
    var ss := data[i].samples;
    seq(|ss|, j requires 0 <= j < |ss| => Point(ss[j], data[i].start + j * StepOf(data, i)))
  }

  /** The points of the first n sessions, session after session. */
  function PointsUpTo(data: seq<Session>, n: nat): seq<Point>
    requires n <= |data| && AllNonEmpty(data)
  {
    if n == 0 then [] else PointsUpTo(data, n - 1) + SessionPoints(data, n - 1)
  }

  /** The points of every session. */
  function Interpolate(data: seq<Session>): seq<Point>
    requires AllNonEmpty(data)
  {
    PointsUpTo(data, |data|)
  }

  /** How many samples the first n sessions hold. */
  function SamplesUpTo(data: seq<Session>, n: nat): nat
    requires n <= |data|
  {
    if n == 0 then 0 else SamplesUpTo(data, n - 1) + |data[n - 1].samples|
  }

  /** One point per sample of the first n sessions. */
  lemma {:induction false} PointsUpToLength(data: seq<Session>, n: nat)
    requires n <= |data| && AllNonEmpty(data)
    ensures |PointsUpTo(data, n)| == SamplesUpTo(data, n)
  {
    if n > 0 {
      PointsUpToLength(data, n - 1);
    }
  }

  /**
    Sample j of session i, for i below n, is the point at index
    SamplesUpTo(data, i) + j, stamped with the session start plus j steps.
   */
  lemma {:induction false} PointsUpToAt(data: seq<Session>, n: nat, i: nat, j: nat)
    requires n <= |data| && AllNonEmpty(data)
    requires i < n && j < |data[i].samples|
    ensures SamplesUpTo(data, i) + j < |PointsUpTo(data, n)|
    ensures PointsUpTo(data, n)[SamplesUpTo(data, i) + j]
         == Point(data[i].samples[j], data[i].start + j * StepOf(data, i))
  {
    var prev, last := PointsUpTo(data, n - 1), SessionPoints(data, n - 1);
    assert PointsUpTo(data, n) == prev + last;
    PointsUpToLength(data, n - 1);
    if i < n - 1 {
      PointsUpToAt(data, n - 1, i, j);
      assert (prev + last)[SamplesUpTo(data, i) + j] == prev[SamplesUpTo(data, i) + j];
    } else {
      assert SamplesUpTo(data, i) == |prev|;
      assert (prev + last)[|prev| + j] == last[j];
    }
  }

  /**
    Interpolation gives exactly one point per stored sample, in
    session-then-sample order, and sample j of session i gets
    start_i + j * ((end_i - start_i) / k_i).
   */
  lemma InterpolateAt(data: seq<Session>, i: nat, j: nat)
    requires AllNonEmpty(data)
    requires i < |data| && j < |data[i].samples|
    ensures |Interpolate(data)| == SamplesUpTo(data, |data|)
    ensures SamplesUpTo(data, i) + j < |Interpolate(data)|
    ensures Interpolate(data)[SamplesUpTo(data, i) + j]
         == Point(data[i].samples[j], data[i].start + j * (DivRound(SessionEnd(data, i) - data[i].start, |data[i].samples|)))
  {
    PointsUpToLength(data, |data|);
    PointsUpToAt(data, |data|, i, j);
  }

  /** Within a session whose end is not before its start, timestamps never decrease. */
  lemma SessionTimesNondecreasing(data: seq<Session>, i: nat, j1: nat, j2: nat)
    requires AllNonEmpty(data) && i < |data|
    requires SessionEnd(data, i) >= data[i].start
    requires j1 <= j2 < |data[i].samples|
    ensures SessionPoints(data, i)[j1].time <= SessionPoints(data, i)[j2].time
  {
    var step := StepOf(data, i);
    assert step >= 0;
    assert j1 * step <= j2 * step;
  }
}
