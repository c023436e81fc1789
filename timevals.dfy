/** `struct timeval` and the `timersub` macro the route data dump uses to
    compute how long the last run took. */
module Timevals {

  const USEC_PER_SEC: int := 1000000

  /** Seconds and microseconds; the fields are signed (`time_t`,
      `suseconds_t`), modelled without their 64-bit bound. */
  datatype Timeval = Timeval(sec: int, usec: int)

  /** A timeval as the clock produces it: microseconds in [0, 1000000). */
  predicate Normalized(t: Timeval)
  {
    0 <= t.usec < USEC_PER_SEC
  }

  /** The instant a timeval denotes, in microseconds. */
  function Micros(t: Timeval): int
  {
    t.sec * USEC_PER_SEC + t.usec
  }

  /** The normalized timeval of an instant given in microseconds, as an
      independent reference for timersub (Dafny's / and % are Euclidean, so
      the remainder is in range for negative instants too). */
  function FromMicros(m: int): (t: Timeval)
    ensures Normalized(t) && Micros(t) == m
  {
    Timeval(m / USEC_PER_SEC, m % USEC_PER_SEC)
  }

  /** timersub(a, b, r): subtract field by field, then borrow one second
      when the microseconds went negative. */
  function TimerSub(a: Timeval, b: Timeval): (r: Timeval)
    ensures Micros(r) == Micros(a) - Micros(b)
    ensures Normalized(a) && Normalized(b) ==> Normalized(r)
  {
    var sec := a.sec - b.sec;
    var usec := a.usec - b.usec;
    if usec < 0 then Timeval(sec - 1, usec + USEC_PER_SEC) else Timeval(sec, usec)
  }

  /** Two normalized timevals for the same instant are the same timeval. */
  lemma NormalizedUnique(s: Timeval, t: Timeval)
    requires Normalized(s) && Normalized(t)
    requires Micros(s) == Micros(t)
    ensures s == t
  {
  }

  /** On normalized inputs timersub is exactly the normalized difference of
      the two instants. */
  lemma TimerSubIsDifference(a: Timeval, b: Timeval)
    requires Normalized(a) && Normalized(b)
    ensures TimerSub(a, b) == FromMicros(Micros(a) - Micros(b))
  {
  }
}
