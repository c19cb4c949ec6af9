/** Times as adns keeps them (struct timeval) and the arithmetic on them. */
module TimeVals {

  const MILLION := 1_000_000

  datatype TimeVal = TimeVal(sec: int, usec: int)

  predicate Normal(t: TimeVal) { 0 <= t.usec < MILLION }

  function Micros(t: TimeVal): int { t.sec * MILLION + t.usec }

  /** timercmp(a, b, >). */
  predicate Later(a: TimeVal, b: TimeVal) { if a.sec == b.sec then a.usec > b.usec else a.sec > b.sec }

  /** timevaladd, for ms >= 0 as it asserts. */
  function AddMs(t: TimeVal, ms: nat): (r: TimeVal)
    ensures Normal(t) ==> Normal(r) && Micros(r) == Micros(t) + ms * 1000
  {
    var u := t.usec + (ms % 1000) * 1000;
    var s := t.sec + ms / 1000;
    if u >= MILLION then TimeVal(s + 1, u - MILLION) else TimeVal(s, u)
  }

  /** On normal times the comparison is that of the microseconds. */
  lemma LaterIs(a: TimeVal, b: TimeVal)
    requires Normal(a) && Normal(b)
    ensures Later(a, b) <==> Micros(a) > Micros(b)
  {
  }
}
