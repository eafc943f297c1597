/** The wrapping cursor `p = (p + 1) % n` that the delay lines and the wave
    tables advance once per sample or frame. */
module Cursor {

  /** Advancing the cursor `(bufptr + 1) % DELAY_BUF_SIZE` moves it one
      slot on and wraps to zero exactly at the capacity. */
  lemma CursorStep(p: nat, c: nat)
    requires p < c
    ensures (p + 1) % c == (if p + 1 == c then 0 else p + 1)
  {
    if p + 1 == c {
      ModUnique(p + 1, 1, 0, c);
    } else {
      ModUnique(p + 1, 0, p + 1, c);
    }
  }

  /** Hence the cursor, started at zero, is always the step count modulo
      the capacity. */
  lemma CursorIsStepModCapacity(i: nat, p: nat, c: nat)
    requires p < c && p == i % c
    ensures (p + 1) % c == (i + 1) % c
  {
    var q := i / c;
    assert i == q * c + p;
    CursorStep(p, c);
    if p + 1 == c {
      ModUnique(i + 1, q + 1, 0, c);
    } else {
      ModUnique(i + 1, q, p + 1, c);
    }
  }

  /** Reducing modulo `m` part-way through a sum changes nothing: a cursor
      advanced `a` times and then `b` times is where one advanced `a + b`
      times would be. */
  lemma ModAdd(a: nat, b: nat, m: nat)
    requires 0 < m
    ensures (a % m + b) % m == (a + b) % m
  {
    DivMod(a, m);
    DivMod(a % m + b, m);
    var q1, q2 := a / m, (a % m + b) / m;
    assert a + b == (q1 + q2) * m + (a % m + b) % m by {
      assert (q1 + q2) * m == q1 * m + q2 * m;
    }
    ModUnique(a + b, q1 + q2, (a % m + b) % m, m);
  }

  /** Division with a remainder in `[0, c)` is unique. */
  lemma ModUnique(a: int, q: int, r: int, c: int)
    requires 0 < c && 0 <= r < c && a == q * c + r
    ensures a % c == r
  {
    var q', r' := a / c, a % c;
    DivMod(a, c);
    assert (q - q') * c == r' - r by { assert q * c - q' * c == (q - q') * c; }
    if q > q' {
      MulAtLeast(q - q', c);
    } else if q < q' {
      MulAtLeast(q' - q, c);
    }
  }

  lemma DivMod(a: int, c: int)
    requires 0 < c
    ensures a == (a / c) * c + a % c && 0 <= a % c < c
  {
  }

  lemma MulAtLeast(d: int, c: int)
    requires 0 < c && 1 <= d
    ensures d * c >= c
  {
  }
}
