/** Rounding down to whole elements. */
module Align {
  /** x - (x % size) */
  function Down(x: nat, size: nat): (r: nat)
    requires size > 0
    ensures r <= x < r + size && r == (x / size) * size
  {
    x - x % size
  }

  lemma Gap(a: int, b: int, size: int)
    requires a < b && size > 0
    ensures a * size + size <= b * size
  {
    assert (b - a - 1) * size >= 0;
    assert b * size == a * size + size + (b - a - 1) * size;
  }

  lemma DivisionIsUnique(x: int, size: int, q: int, r: int)
    requires size > 0 && 0 <= r < size && x == q * size + r
    ensures x / size == q && x % size == r
  {
    var p := x / size;
    if p < q {
      Gap(p, q, size);
    } else if q < p {
      Gap(q, p, size);
    }
  }

  /** Down gives a whole number of elements, and does not change one. */
  lemma DownIsWhole(x: nat, size: nat)
    requires size > 0
    ensures Down(x, size) % size == 0
    ensures x % size == 0 ==> Down(x, size) == x
  {
    DivisionIsUnique(Down(x, size), size, x / size, 0);
  }

  /** A larger whole number of elements is larger by an element. */
  lemma WholeStep(x: nat, y: nat, size: nat)
    requires size > 0 && Down(x, size) < Down(y, size)
    ensures Down(x, size) + size <= Down(y, size) && x < Down(y, size)
  {
    var a, b := x / size, y / size;
    if b < a {
      Gap(b, a, size);
    } else if a < b {
      Gap(a, b, size);
    }
  }

  lemma DownIsMonotone(x: nat, y: nat, size: nat)
    requires size > 0 && x <= y
    ensures Down(x, size) <= Down(y, size)
  {
    var a, b := x / size, y / size;
    if b < a {
      Gap(b, a, size);
    } else if a < b {
      Gap(a, b, size);
    }
  }
}
