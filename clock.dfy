/**
 * The arithmetic of `really_time`: a `struct timeval` (seconds and
 * microseconds) turned into milliseconds on unsigned 64-bit words.  The
 * system call itself is outside the model.
 */
module Clock {
  import opened Words

  /** The largest second count whose milliseconds still fit in 64 bits, plus one. */
  const SecondsLimit: int := TwoTo64 / 1000

  /**
   * `(ukey_uint64)tv_sec * 1000ULL + (ukey_uint64)tv_usec / 1000ULL`, every
   * step wrapping modulo 2^64 as unsigned arithmetic does.
   */
  function MillisOf(sec: int, usec: int): (ms: U64)
    // for a genuine timeval the milliseconds split back into the whole
    // seconds and the milliseconds within that second
    ensures 0 <= sec < SecondsLimit && 0 <= usec < 1_000_000 ==>
              ms / 1000 == sec && ms % 1000 == usec / 1000
  {
    var s: U64 := sec % TwoTo64;
    var u: U64 := usec % TwoTo64;
    var ms := ((s * 1000) % TwoTo64 + u / 1000) % TwoTo64;
    if 0 <= sec < SecondsLimit && 0 <= usec < 1_000_000 then
      DivModUnique(sec, TwoTo64, 0, sec);
      DivModUnique(usec, TwoTo64, 0, usec);
      DivModUnique(sec * 1000, TwoTo64, 0, sec * 1000);
      DivModUnique(sec * 1000 + usec / 1000, TwoTo64, 0, sec * 1000 + usec / 1000);
      DivModUnique(sec * 1000 + usec / 1000, 1000, sec, usec / 1000);
      ms
    else
      ms
  }

  /**
   * A later timeval never gives fewer milliseconds: `really_time` follows
   * the clock it reads.
   */
  lemma MillisMonotone(sec1: int, usec1: int, sec2: int, usec2: int)
    requires 0 <= sec1 < SecondsLimit && 0 <= usec1 < 1_000_000
    requires 0 <= sec2 < SecondsLimit && 0 <= usec2 < 1_000_000
    requires sec1 < sec2 || (sec1 == sec2 && usec1 <= usec2)
    ensures MillisOf(sec1, usec1) <= MillisOf(sec2, usec2)
  {
    var m1, m2 := MillisOf(sec1, usec1), MillisOf(sec2, usec2);
    assert m1 == (m1 / 1000) * 1000 + m1 % 1000;
    assert m2 == (m2 / 1000) * 1000 + m2 % 1000;
    if sec1 < sec2 {
      assert sec1 * 1000 + 1000 <= sec2 * 1000;
    }
  }
}
