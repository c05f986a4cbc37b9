// Integer arithmetic on Unix timestamps, with Go's operators.
module Clock {

  /** Go's `%` on int64 for a positive divisor: the remainder takes the sign of the dividend. */
  function Rem(a: int, step: int): int
    requires step >= 1
  {
    if a >= 0 then a % step else -((-a) % step)
  }

  /** The aligned timestamp `a - a%step`. */
  function Align(a: int, step: int): int
    requires step >= 1
  {
    a - Rem(a, step)
  }

  ghost predicate Aligned(a: int, step: int)
    requires step >= 1
  {
    a % step == 0
  }

  lemma ModMultiple(q: int, r: int, size: int)
    requires 0 <= r < size
    ensures (q * size + r) % size == r
  {
    var q', r' := (q * size + r) / size, (q * size + r) % size;
    assert (q - q') * size == r' - r;
    if q - q' >= 1 {
      MulAtLeast(q - q', size);
    } else if q' - q >= 1 {
      MulAtLeast(q' - q, size);
    }
  }

  lemma MultipleIsAligned(n: int, step: int)
    requires step >= 1
    ensures Aligned(n * step, step)
  {
    ModMultiple(n, 0, step);
  }

  lemma MulAtLeast(n: int, step: int)
    requires step >= 1 && n >= 1
    ensures n * step >= step
  {
  }

  /** Alignment yields a multiple of the step less than one step away, towards zero. */
  lemma AlignProperties(a: int, step: int)
    requires step >= 1
    ensures Aligned(Align(a, step), step)
    ensures a >= 0 ==> 0 <= Align(a, step) <= a < Align(a, step) + step
    ensures a <= 0 ==> Align(a, step) - step < a <= Align(a, step) <= 0
    ensures Aligned(a, step) ==> Align(a, step) == a
  {
    if a >= 0 {
      AlignNat(a, step);
    } else {
      AlignNat(-a, step);
      AlignedNegation(-a - (-a) % step, step);
      if Aligned(a, step) {
        AlignedNegation(a, step);
      }
    }
  }

  lemma AlignNat(a: nat, step: int)
    requires step >= 1
    ensures Aligned(a - a % step, step) && 0 <= a - a % step
  {
    assert a - a % step == (a / step) * step;
    MultipleIsAligned(a / step, step);
  }

  lemma AlignedNegation(a: int, step: int)
    requires step >= 1 && Aligned(a, step)
    ensures Aligned(-a, step)
  {
    assert -a == -(a / step) * step;
    MultipleIsAligned(-(a / step), step);
  }

  lemma AlignedSum(a: int, b: int, step: int)
    requires step >= 1 && Aligned(a, step) && Aligned(b, step)
    ensures Aligned(a + b, step)
  {
    assert a + b == (a / step + b / step) * step;
    MultipleIsAligned(a / step + b / step, step);
  }

  lemma AlignedNext(a: int, step: int)
    requires step >= 1 && Aligned(a, step)
    ensures Aligned(a + step, step)
  {
    MultipleIsAligned(1, step);
    AlignedSum(a, step, step);
  }

  lemma AlignedDifference(a: int, b: int, step: int)
    requires step >= 1 && Aligned(a, step) && Aligned(b, step)
    ensures Aligned(a - b, step)
  {
    AlignedNegation(b, step);
    AlignedSum(a, -b, step);
  }

  lemma DivMonotone(a: int, b: int, step: int)
    requires step >= 1 && a <= b
    ensures a / step <= b / step
  {
    var p, q := a / step, b / step;
    assert a == step * p + a % step && b == step * q + b % step;
    assert step * p - step * q == (p - q) * step;
    if q < p {
      MulAtLeast(p - q, step);
    }
  }

  /** Two aligned timestamps are equal or at least one step apart. */
  lemma AlignedGap(a: int, b: int, step: int)
    requires step >= 1 && Aligned(a, step) && Aligned(b, step) && a < b
    ensures a + step <= b
  {
    var p, q := a / step, b / step;
    assert a == step * p && b == step * q;
    assert b - a == (q - p) * step;
    if p < q {
      MulAtLeast(q - p, step);
    }
  }
}
