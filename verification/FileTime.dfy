/**
 * Conversion between file times, which count microseconds in 64 bits, and the seconds and nanoseconds of the
 * operating system.
 */
module FileTime {

  const MIN_FILE_TIME: int := -0x8000_0000_0000_0000
  const MAX_FILE_TIME: int := 0x7FFF_FFFF_FFFF_FFFF

  const MAX_SECONDS: int := 9223372036854
  const MAX_NSEC: int := 775807000
  const MIN_SECONDS: int := -9223372036854
  const MIN_NSEC_TIMESPEC: int := 224192000

  /** The limits are those of a 64-bit count of microseconds, as the static assertion of the original has it. */
  lemma LimitsFit()
    ensures MAX_SECONDS * 1000000 + MAX_NSEC / 1000 == MAX_FILE_TIME && MAX_NSEC % 1000 == 0
    ensures MIN_SECONDS * 1000000 + MIN_NSEC_TIMESPEC / 1000 - 1000000 == MIN_FILE_TIME && MIN_NSEC_TIMESPEC % 1000 == 0
    ensures Truncate(MAX_FILE_TIME, 1000000) == MAX_SECONDS && Truncate(MIN_FILE_TIME, 1000000) == MIN_SECONDS
  {
  }

  /** Division as the language has it, towards zero. */
  function Truncate(a: int, b: int): (q: int)
    requires b > 0
    ensures a >= 0 ==> q * b <= a < q * b + b
    ensures a <= 0 ==> q * b - b < a <= q * b
  {
    if a >= 0 then a / b else -(-a / b)
  }

  datatype TimeSpec = TimeSpec(sec: int, nsec: int) {
    predicate Valid() {
      0 <= nsec < 1000000000
    }

    /** The time that is meant, in nanoseconds. */
    function Nanoseconds(): int {
      sec * 1000000000 + nsec
    }
  }

  predicate IsFileTime(t: int) {
    MIN_FILE_TIME <= t <= MAX_FILE_TIME
  }

  // ---- from the operating system ----

  predicate IsRepresentable(tm: TimeSpec) {
    if tm.sec >= 0 then tm.sec < MAX_SECONDS || (tm.sec == MAX_SECONDS && tm.nsec <= MAX_NSEC)
    else if tm.sec == MIN_SECONDS - 1 then tm.nsec >= MIN_NSEC_TIMESPEC
    else tm.sec >= MIN_SECONDS
  }

  function ConvertTimespec(tm: TimeSpec): int {
    var adjMsec := Truncate(tm.nsec, 1000);
    if tm.sec >= 0 then tm.sec * 1000000 + adjMsec
    else if adjMsec == 0 then tm.sec * 1000000
    else
      var adjSubsec := Truncate(1000000000 - tm.nsec, 1000);
      (tm.sec + 1) * 1000000 - adjSubsec
  }

  /** Exactly the times between the smallest and the largest file time are accepted. */
  lemma RepresentableExactly(tm: TimeSpec)
    requires tm.Valid()
    ensures IsRepresentable(tm) <==> MIN_FILE_TIME * 1000 <= tm.Nanoseconds() <= MAX_FILE_TIME * 1000
  {
  }

  /** An accepted time becomes a file time less than a microsecond away, and an exact one if it is whole microseconds. */
  lemma ConvertsClosely(tm: TimeSpec)
    requires tm.Valid() && IsRepresentable(tm)
    ensures IsFileTime(ConvertTimespec(tm))
    ensures -1000 < ConvertTimespec(tm) * 1000 - tm.Nanoseconds() < 1000
    ensures tm.nsec % 1000 == 0 ==> ConvertTimespec(tm) * 1000 == tm.Nanoseconds()
  {
  }

  /** From 0 on the microsecond is cut off; before, a fraction of one or more goes up, and less is the whole second. */
  lemma RoundsTowards(tm: TimeSpec)
    requires tm.Valid()
    ensures tm.sec >= 0 ==> tm.Nanoseconds() - 1000 < ConvertTimespec(tm) * 1000 <= tm.Nanoseconds()
    ensures tm.sec < 0 && tm.nsec >= 1000 ==> tm.Nanoseconds() <= ConvertTimespec(tm) * 1000 < tm.Nanoseconds() + 1000
    ensures tm.sec < 0 && tm.nsec < 1000 ==> ConvertTimespec(tm) == tm.sec * 1000000
  {
  }

  /** A later time never becomes an earlier file time. */
  lemma ConvertsInOrder(a: TimeSpec, b: TimeSpec)
    requires a.Valid() && b.Valid() && a.Nanoseconds() <= b.Nanoseconds()
    ensures ConvertTimespec(a) <= ConvertTimespec(b)
  {
  }

  // ---- to the operating system ----

  datatype Limits = Limits(min: int, max: int) {
    predicate Has(v: int) {
      min <= v <= max
    }
  }

  class Cell {
    var value: int

    constructor (v: int)
      ensures value == v
    {
      value := v;
    }
  }

  /** The seconds and the part of a second that set_times_checked puts out, in units of which a microsecond has per. */
  function Split(t: int, per: int): (int, int) {
    var sec := Truncate(t, 1000000);
    var subsec := (t - sec * 1000000) * per;
    if subsec >= 0 then (sec, subsec)
    else if sec > MIN_SECONDS then (sec - 1, subsec + 1000000 * per)
    else (sec, 0)
  }

  method CheckedSet(out: Cell, v: int, limits: Limits) returns (ok: bool)
    modifies out
    ensures ok == limits.Has(v)
    ensures out.value == if ok then v else old(out.value)
  {
    if v > limits.max || v < limits.min {
      return false;
    }
    out.value := v;
    return true;
  }

  method SetTimesChecked(secOut: Cell, subsecOut: Cell, t: int, per: int, time: Limits, sub: Limits) returns (ok: bool)
    requires secOut != subsecOut && (per == 1 || per == 1000)
    modifies secOut, subsecOut
    ensures var (sec, subsec) := Split(t, per);
      && ok == (time.Has(sec) && sub.Has(subsec))
      && secOut.value == (if time.Has(sec) then sec else old(secOut.value))
      && subsecOut.value == if ok then subsec else old(subsecOut.value)
  {
    var sec := Truncate(t, 1000000);
    var subsec := (t - sec * 1000000) * per;
    if subsec < 0 {
      if sec > MIN_SECONDS {
        sec := sec - 1;
        subsec := subsec + 1000000 * per;
      } else {
        subsec := 0;
      }
    }
    ok := CheckedSet(secOut, sec, time);
    if ok {
      ok := CheckedSet(subsecOut, subsec, sub);
    }
  }

  /** The part of a second lies within one second, and both parts together are the time, unless it was clamped. */
  lemma SplitExactly(t: int, per: int)
    requires IsFileTime(t) && (per == 1 || per == 1000)
    ensures var (sec, subsec) := Split(t, per);
      && 0 <= subsec < 1000000 * per
      && (t < MIN_SECONDS * 1000000 ==> sec == MIN_SECONDS && subsec == 0)
      && (sec * 1000000 * per + subsec == t * per <==> t >= MIN_SECONDS * 1000000)
  {
  }

  /** Set with nanoseconds and read back, a file time is the same, exactly when its fraction is not clamped. */
  lemma RoundTrip(t: int)
    requires IsFileTime(t)
    ensures var (sec, nsec) := Split(t, 1000);
      && IsRepresentable(TimeSpec(sec, nsec))
      && (ConvertTimespec(TimeSpec(sec, nsec)) == t <==> t >= MIN_SECONDS * 1000000)
  {
  }

  // ---- the test on file times ----

  /** is_representable of a file time: where the fraction is negative it counts the seconds up, not down. */
  predicate IsRepresentableFileTime(t: int, time: Limits) {
    var secs := Truncate(t, 1000000);
    var shown := if t - secs * 1000000 < 0 then secs + 1 else secs;
    if shown >= 0 then shown <= time.max else shown >= time.min
  }

  /** So it promises too much for the second below the smallest that can be set, and the one below that. */
  predicate Overpromised(t: int, time: Limits) {
    var secs := Truncate(t, 1000000);
    && t < secs * 1000000
    && (if secs > MIN_SECONDS then time.min - 1 <= secs <= time.min else secs == time.min - 1)
  }

  lemma PromisesExactly(t: int, time: Limits)
    requires IsFileTime(t) && time.min < -1 && 0 < time.max
    ensures (IsRepresentableFileTime(t, time) <==> time.Has(Split(t, 1000).0)) <==> !Overpromised(t, time)
  {
  }
}
