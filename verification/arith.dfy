/** Integer helpers shared by the partitioner and the driver: minimum,
    ceiling division, and the uniqueness of Euclidean quotient/remainder. */
module Arith {

  function Min(a: int, b: int): (m: int)
    ensures m <= a && m <= b
    ensures m == a || m == b
  {
    if a <= b then a else b
  }

  /** Number of windows of width `b` needed to cover `a` elements, the last
      one possibly short: ceil(a / b). */
  function CeilDiv(a: nat, b: nat): nat
    requires b > 0
    decreases a
  {
    if a == 0 then 0 else if a <= b then 1 else 1 + CeilDiv(a - b, b)
  }

  /** Quotient and remainder are determined by `k == q * d + j` with `0 <= j < d`. */
  lemma DivModUnique(k: int, d: int, q: int, j: int)
    requires d > 0
    requires 0 <= j < d
    requires k == q * d + j
    ensures k / d == q
    ensures k % d == j
  {
    var q', j' := k / d, k % d;
    assert k == q' * d + j';
    assert (q - q') * d == j' - j;
    if q > q' {
      MulAtLeast(q - q', d);
      assert false;
    } else if q < q' {
      MulAtLeast(q' - q, d);
      assert false;
    }
  }

  lemma MulAtLeast(x: int, d: int)
    requires x >= 1 && d > 0
    ensures x * d >= d
  {
  }

  /** `CeilDiv(a, b)` brackets `a` between two multiples of `b`. */
  lemma {:induction false} CeilDivBounds(a: nat, b: nat)
    requires b > 0
    ensures CeilDiv(a, b) * b >= a
    ensures CeilDiv(a, b) == 0 || (CeilDiv(a, b) - 1) * b < a
    ensures a == 0 <==> CeilDiv(a, b) == 0
    ensures 0 < a <= b ==> CeilDiv(a, b) == 1
    decreases a
  {
    if a > b {
      CeilDivBounds(a - b, b);
      var c := CeilDiv(a - b, b);
      assert (c + 1) * b == c * b + b;
    }
  }

  /** The bracketing determines `CeilDiv(a, b)`: it is the least `q` with `q * b >= a`. */
  lemma {:induction false} CeilDivUnique(a: nat, b: nat, q: nat)
    requires b > 0
    requires q * b >= a
    requires q == 0 || (q - 1) * b < a
    ensures CeilDiv(a, b) == q
    decreases a
  {
    if a == 0 {
      if q > 0 {
        MulAtLeast(q, b);
        assert false;
      }
    } else {
      if q == 0 {
        assert false;
      }
      assert (q - 1) * b == q * b - b;
      if a <= b {
        if q > 1 {
          MulAtLeast(q - 1, b);
          assert false;
        }
      } else {
        if q == 1 {
          assert false;
        }
        assert (q - 2) * b == (q - 1) * b - b;
        CeilDivUnique(a - b, b, q - 1);
      }
    }
  }

  /** The recursive definition agrees with the usual formula `(a + b - 1) / b`. */
  lemma CeilDivFormula(a: nat, b: nat)
    requires b > 0
    ensures CeilDiv(a, b) == (a + b - 1) / b
  {
    CeilDivBounds(a, b);
    var c := CeilDiv(a, b);
    if c == 0 {
      DivModUnique(a + b - 1, b, 0, b - 1);
    } else {
      assert (c - 1) * b == c * b - b;
      DivModUnique(a + b - 1, b, c, a + b - 1 - c * b);
    }
  }

  /** A product bound used for indices into a row-major grid. */
  lemma GridIndexBound(r: nat, w: nat, j: nat, rows: nat)
    requires r < rows && j < w
    ensures r * w + j < rows * w
  {
    assert rows * w == (rows - 1 - r) * w + r * w + w;
    assert (rows - 1 - r) * w >= 0;
  }

  /** Multiplying by a non-negative factor preserves order. */
  lemma MulMono(a: int, x: int, y: int)
    requires a >= 0 && x <= y
    ensures a * x <= a * y
  {
  }

  lemma MulLess(q: int, c: int, b: int)
    requires 0 <= q < c && b > 0
    ensures q * b <= (c - 1) * b
  {
  }

  /** Row of index `k` in a grid of `w` columns, found by peeling off whole rows.
      This is `k / w` (see `RowColIsDivMod`); the peeling form is kept because
      its one-row-at-a-time unfolding matches the outer loop's passes, so the
      grid proofs need no division by a variable, which the solver handles
      poorly. */
  function RowOf(k: nat, w: nat): nat
    requires w > 0
    decreases k
  {
    if k < w then 0 else 1 + RowOf(k - w, w)
  }

  /** Column of index `k` in a grid of `w` columns. */
  function ColOf(k: nat, w: nat): (c: nat)
    requires w > 0
    ensures c < w
    decreases k
  {
    if k < w then k else ColOf(k - w, w)
  }

  /** Peeling one row off an index. */
  lemma RowColStep(k: nat, w: nat)
    requires w > 0
    ensures k < w ==> RowOf(k, w) == 0 && ColOf(k, w) == k
    ensures k >= w ==> RowOf(k, w) == RowOf(k - w, w) + 1 && ColOf(k, w) == ColOf(k - w, w)
  {
  }

  /** Row and column recompose the index. */
  lemma {:induction false} RowColSplit(k: nat, w: nat)
    requires w > 0
    ensures k == RowOf(k, w) * w + ColOf(k, w)
    decreases k
  {
    if k >= w {
      RowColSplit(k - w, w);
      NextMultiple(RowOf(k - w, w), w);
    }
  }

  /** Peeling rows computes the Euclidean quotient and remainder. */
  lemma RowColIsDivMod(k: nat, w: nat)
    requires w > 0
    ensures RowOf(k, w) == k / w
    ensures ColOf(k, w) == k % w
  {
    RowColSplit(k, w);
    DivModUnique(k, w, RowOf(k, w), ColOf(k, w));
  }

  lemma MulAssoc(x: int, y: int, z: int)
    ensures x * y * z == x * (y * z)
  {
  }

  lemma NextMultiple(q: int, b: int)
    ensures (q + 1) * b == q * b + b
  {
  }

  /** A grid index has exactly one (row, column) decomposition. */
  lemma CellUnique(k: int, w: int, q: int, j: int, q2: int, j2: int)
    requires w > 0 && 0 <= j < w && 0 <= j2 < w
    requires k == q * w + j && k == q2 * w + j2
    ensures q == q2 && j == j2
  {
    DivModUnique(k, w, q, j);
    DivModUnique(k, w, q2, j2);
  }

  /** The cell after (q, j) is (q, j + 1) inside a row and (q + 1, 0) after its end. */
  lemma CellNext(k: int, w: int, q: int, j: int, q2: int, j2: int)
    requires w > 0 && 0 <= j < w && 0 <= j2 < w
    requires k - 1 == q * w + j && k == q2 * w + j2
    ensures j + 1 < w ==> q2 == q && j2 == j + 1
    ensures j + 1 == w ==> q2 == q + 1 && j2 == 0
  {
    if j + 1 < w {
      CellUnique(k, w, q, j + 1, q2, j2);
    } else {
      NextMultiple(q, w);
      CellUnique(k, w, q + 1, 0, q2, j2);
    }
  }

  /** The last cell of a `rows` by `w` grid is (rows - 1, w - 1). */
  lemma CellLast(rows: int, w: int, q: int, j: int)
    requires w > 0 && rows > 0 && 0 <= j < w
    requires rows * w - 1 == q * w + j
    ensures q == rows - 1 && j == w - 1
  {
    NextMultiple(rows - 1, w);
    CellUnique(rows * w - 1, w, rows - 1, w - 1, q, j);
  }

  /** Chunk `j` of `CeilDiv(len, n)` chunks of width `n` starts inside the axis;
      every chunk but the last ends inside it too, and the last reaches its end. */
  lemma ChunkInside(j: nat, w: nat, n: nat, len: nat)
    requires n > 0 && w == CeilDiv(len, n) && j < w
    ensures j * n < len
    ensures j + 1 < w ==> j * n + n < len && j * n + n == (j + 1) * n
    ensures j + 1 == w ==> j * n + n >= len
  {
    CeilDivBounds(len, n);
    MulLess(j, w, n);
    NextMultiple(j, n);
    if j + 1 < w {
      MulLess(j + 1, w, n);
    } else {
      NextMultiple(w - 1, n);
    }
  }

  /** When `n` divides `len`, every one of the `CeilDiv(len, n)` chunks is whole. */
  lemma ChunkFull(j: nat, w: nat, n: nat, len: nat)
    requires n > 0 && w == CeilDiv(len, n) && j < w && len % n == 0
    ensures j * n + n <= len
  {
    var c := len / n;
    assert len == c * n;
    if c > 0 {
      assert (c - 1) * n == c * n - n;
    }
    CeilDivUnique(len, n, c);
    MulMono(n, j + 1, w);
    NextMultiple(j, n);
  }

  /** When `n` does not divide `len`, the last chunk holds the remainder `len % n`. */
  lemma ChunkShort(w: nat, n: nat, len: nat)
    requires n > 0 && w == CeilDiv(len, n) && len % n != 0
    ensures w > 0 && len - (w - 1) * n == len % n
  {
    CeilDivBounds(len, n);
    NextMultiple(w - 1, n);
    var r := len - (w - 1) * n;
    if r == n {
      DivModUnique(len, n, w, 0);
      assert false;
    }
    DivModUnique(len, n, w - 1, r);
  }

  /** A quantity bounded by `m` units of `c` is bounded by `lim >= m` units,
      strictly so when `m < lim`. */
  lemma UnitsBound(work: int, m: int, lim: int, c: int)
    requires 0 <= m <= lim && c > 0 && work <= m * c
    ensures work <= lim * c
    ensures m < lim ==> work < lim * c
  {
  }

  /** Where `s` falls when `[0, len)` is cut into `CeilDiv(len, b)` pieces of width `b`. */
  lemma Locate(s: nat, b: nat, len: nat) returns (r: nat)
    requires b > 0 && s < len
    ensures r == s / b
    ensures r < CeilDiv(len, b)
    ensures r * b <= s < r * b + b
  {
    CeilDivBounds(len, b);
    var c := CeilDiv(len, b);
    r := s / b;
    if r >= c {
      MulLess(c, r + 1, b);
      assert false;
    }
  }
}
