/** Instants and their protobuf form: `time.Time` as the instant it denotes, and
    `timestamppb.Timestamp` with the conversions `New` and `AsTime`. */
module Timestamps {
  import opened Wrappers

  /** A `time.Time` as its instant: nanoseconds since the Unix epoch. */
  type Time = int

  const NanosPerSecond := 1_000_000_000

  /** The zero `time.Time`, January 1 of year 1 UTC, which `IsZero` recognises; it lies
      62135596800 seconds before the epoch. */
  const ZeroTime: Time := -62_135_596_800 * NanosPerSecond

  /** `IsZero`: the instant is that of the zero `time.Time`. */
  predicate IsZero(t: Time) {
    t == ZeroTime
  }

  /** `timestamppb.Timestamp`: whole seconds since the epoch and the nanoseconds within that
      second. */
  datatype Timestamp = Timestamp(seconds: int, nanos: int)

  /** `timestamppb.New`: the seconds are rounded towards the past, so the nanoseconds always lie
      in [0, 10^9). */
  function NewTimestamp(t: Time): (ts: Timestamp)
    ensures 0 <= ts.nanos < NanosPerSecond
    ensures ts.seconds * NanosPerSecond + ts.nanos == t
  {
    Timestamp(t / NanosPerSecond, t % NanosPerSecond)
  }

  /** `AsTime`; a nil timestamp reads as the Unix epoch. */
  function AsTime(ts: Option<Timestamp>): (t: Time)
    ensures ts.None? ==> t == 0
  {
    match ts
    case None => 0
    case Some(Timestamp(seconds, nanos)) => seconds * NanosPerSecond + nanos
  }

  /** A time survives `New` followed by `AsTime`. */
  lemma AsTimeNewTimestamp(t: Time)
    ensures AsTime(Some(NewTimestamp(t))) == t
  {
  }

  /** A timestamp whose nanoseconds are in range survives `AsTime` followed by `New`. */
  lemma {:induction false} NewTimestampAsTime(ts: Timestamp)
    requires 0 <= ts.nanos < NanosPerSecond
    ensures NewTimestamp(AsTime(Some(ts))) == ts
  {
    var t := AsTime(Some(ts));
    var back := NewTimestamp(t);
    var d := ts.seconds - back.seconds;
    assert d * NanosPerSecond == back.nanos - ts.nanos;
    MultipleBound(d, NanosPerSecond);
  }

  /** A non-zero multiple of m is at least m away from zero. */
  lemma MultipleBound(d: int, m: int)
    requires m > 0
    ensures d >= 1 ==> d * m >= m
    ensures d <= -1 ==> d * m <= -m
  {
    if d >= 1 {
      assert d * m == m + (d - 1) * m;
    } else if d <= -1 {
      assert d * m == -m + (d + 1) * m;
    }
  }
}
