/** The handful of floor-division and cross-multiplication facts the share accounting rests on. */
module Arith {

  lemma Floor(x: int, d: int)
    requires d > 0
    ensures (x / d) * d <= x < (x / d) * d + d
  {
  }

  /** The quotient is the only integer that fits. */
  lemma FloorUnique(x: int, d: int, q: int)
    requires d > 0
    requires q * d <= x < q * d + d
    ensures x / d == q
  {
    Floor(x, d);
    var p := x / d;
    if p < q {
      MulMono(p + 1, q, d);
    } else if q < p {
      MulMono(q + 1, p, d);
    }
  }

  lemma MulMono(x: int, y: int, z: int)
    requires x <= y && z >= 0
    ensures x * z <= y * z && z * x <= z * y
  {
  }

  lemma MulCancel(x: int, y: int, z: int)
    requires z > 0
    requires x * z <= y * z
    ensures x <= y
  {
    if y < x {
      MulMono(y + 1, x, z);
    }
  }

  lemma MulCancelStrict(x: int, y: int, z: int)
    requires z > 0
    requires x * z < y * z
    ensures x < y
  {
    if y <= x {
      MulMono(y, x, z);
    }
  }

  lemma FloorMono(x: int, y: int, d: int)
    requires d > 0 && x <= y
    ensures x / d <= y / d
  {
    Floor(x, d);
    Floor(y, d);
    if y / d < x / d {
      MulMono(y / d + 1, x / d, d);
    }
  }

  lemma FloorNonNegative(x: int, d: int)
    requires d > 0 && x >= 0
    ensures 0 <= x / d
  {
    FloorMono(0, x, d);
  }

  /** The largest integer below a bound: `q·d <= x` gives `q <= floor(x/d)`. */
  lemma FloorIsGreatest(x: int, d: int, q: int)
    requires d > 0 && q * d <= x
    ensures q <= x / d
  {
    Floor(x, d);
    if x / d < q {
      MulMono(x / d + 1, q, d);
    }
  }

  /** `floor(x/d) <= y` whenever `x <= y·d`. */
  lemma FloorAtMost(x: int, d: int, y: int)
    requires d > 0 && x <= y * d
    ensures x / d <= y
  {
    Floor(x, d);
    MulCancel(x / d, y, d);
  }
}
