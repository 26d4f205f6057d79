/** `struct timeval` and the `timersub` macro of <sys/time.h>, as used for the dispatch interval. */
module Clock {

  const MICROS_PER_SECOND: int := 1000000

  datatype Timeval = Timeval(sec: int, usec: int)
  {
    predicate Normal()
    {
      0 <= usec < MICROS_PER_SECOND
    }

    function Micros(): int
    {
      sec * MICROS_PER_SECOND + usec
    }
  }

  /** timersub: subtract field by field, then borrow one second if the microseconds went negative. */
  function TimerSub(a: Timeval, b: Timeval): Timeval
  {
    var sec, usec := a.sec - b.sec, a.usec - b.usec;
    if usec < 0 then Timeval(sec - 1, usec + MICROS_PER_SECOND) else Timeval(sec, usec)
  }

  /** The interval is the exact difference, normalised, and non-negative when the clock did not go back. */
  lemma TimerSubIsDifference(a: Timeval, b: Timeval)
    requires a.Normal() && b.Normal()
    ensures var d := TimerSub(a, b);
            && d.Normal()
            && b.Micros() + d.Micros() == a.Micros()
            && (b.Micros() <= a.Micros() <==> d.sec >= 0)
  {
  }
}
