/**
 * The two progress-bar widths the widget shows while a file is in flight:
 * the current file's and the whole selection's.  The widget writes each as
 * `Math.ceil(100 * done / whole)` percent; here that is the integer
 * ceiling of the exact quotient.
 */
module Progress {

  /** Percentage `done` is of `whole`, rounded up. */
  function Percent(done: nat, whole: nat): (p: nat)
    requires whole > 0
    ensures (p - 1) * whole < 100 * done <= p * whole
  {
    var q := (100 * done + whole - 1) / whole;
    var r := (100 * done + whole - 1) % whole;
    assert q * whole + r == 100 * done + whole - 1 && 0 <= r < whole;
    MulLeft(q, whole);
    q
  }

  lemma MulLeft(q: int, w: int)
    ensures (q - 1) * w == q * w - w
  {
  }

  /** Any whole percentage that is at least the exact ratio is at least the
      rounded-up one: `Percent` is the least such value. */
  lemma PercentLeast(done: nat, whole: nat, q: int)
    requires whole > 0
    requires 100 * done <= q * whole
    ensures Percent(done, whole) <= q
  {
    var p := Percent(done, whole);
    if q < p {
      assert q <= p - 1;
      MulMono(q, p - 1, whole);
      assert false;
    }
  }

  lemma MulMono(a: int, b: int, w: nat)
    requires a <= b
    ensures a * w <= b * w
  {
    var d := b - a;
    assert b * w == a * w + d * w;
  }

  /** More bytes acknowledged never shrinks a bar. */
  lemma PercentMonotone(d1: nat, d2: nat, whole: nat)
    requires whole > 0
    requires d1 <= d2
    ensures Percent(d1, whole) <= Percent(d2, whole)
  {
    PercentLeast(d1, whole, Percent(d2, whole));
  }

  /** A bar never passes 100% while the bytes counted do not pass the whole. */
  lemma PercentAtMostFull(done: nat, whole: nat)
    requires whole > 0
    requires done <= whole
    ensures Percent(done, whole) <= 100
  {
    PercentLeast(done, whole, 100);
  }

  /** A bar is exactly full when every byte is counted. */
  lemma PercentFull(whole: nat)
    requires whole > 0
    ensures Percent(whole, whole) == 100
  {
    var p := Percent(whole, whole);
    PercentLeast(whole, whole, 100);
    if p < 100 {
      MulMono(p, 99, whole);
      assert false;
    }
  }

  /** A bar is empty exactly when no byte is counted; a single byte already
      shows as 1%. */
  lemma PercentEmpty(done: nat, whole: nat)
    requires whole > 0
    ensures Percent(done, whole) == 0 <==> done == 0
  {
    if done == 0 {
      PercentLeast(done, whole, 0);
    }
  }
}
