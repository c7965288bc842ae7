/** The generic ordered clamp of utils.go, over the integers (it is used at `int` and at `uint8`). */
module Utils {

  /** clamp(v, min, max): `min` below the range, `max` above it, `v` itself inside it. */
  function Clamp(v: int, lo: int, hi: int): (r: int)
    ensures lo <= hi ==> lo <= r <= hi
    ensures v < lo ==> r == lo
    ensures lo <= v && hi < v ==> r == hi
    ensures lo <= v <= hi ==> r == v
  {
    if v < lo then lo
    else if v > hi then hi
    else v
  }

  /** With a well-formed range the clamp is the point of [lo, hi] nearest to v. */
  lemma ClampIsNearest(v: int, lo: int, hi: int, u: int)
    requires lo <= hi && lo <= u <= hi
    ensures var r := Clamp(v, lo, hi); (if r <= v then v - r else r - v) <= (if u <= v then v - u else u - v)
  {
  }

  /** Clamping is idempotent on a well-formed range. */
  lemma ClampIdempotent(v: int, lo: int, hi: int)
    requires lo <= hi
    ensures Clamp(Clamp(v, lo, hi), lo, hi) == Clamp(v, lo, hi)
  {
  }

  /** With an empty range (lo > hi) every value at or above lo ends at hi, so the result is then below lo. */
  lemma ClampEmptyRange(v: int, lo: int, hi: int)
    requires hi < lo
    ensures Clamp(v, lo, hi) == if v < lo then lo else hi
  {
  }
}
