/** Small shared vocabulary: an optional value, integer clamping and inclusive
    integer ranges. */
module Options {

  /** A value that may be absent: a missing table cell, a parse that failed,
      a search that found nothing. */
  datatype Option<+T> = None | Some(value: T)

  /** The smaller of two integers (Python's built-in `min` on two ints). */
  function Min(a: int, b: int): (r: int)
    ensures r <= a && r <= b
    ensures r == a || r == b
  {
    if a <= b then a else b
  }

  /** An inclusive integer range, the shape of `random.randint(lo, hi)`. */
  datatype Band = Band(lo: int, hi: int) {
    predicate Contains(x: int) {
      lo <= x <= hi
    }
  }
}
