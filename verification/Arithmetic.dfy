/** The smaller and the larger of two numbers, and the few facts about products and quotients the other modules need. */
module Arithmetic {

  function Min(a: int, b: int): int { if a < b then a else b }

  function Max(a: int, b: int): int { if a < b then b else a }

  function MinReal(a: real, b: real): real { if a < b then a else b }

  function MaxReal(a: real, b: real): real { if a < b then b else a }

  lemma MulMono(a: nat, b: nat, c: nat)
    requires a <= b
    ensures a * c <= b * c && c * a <= c * b && 0 <= a * c
  {
    assert b * c - a * c == (b - a) * c;
    NonNegative(b - a, c);
    NonNegative(a, c);
  }

  lemma NonNegative(a: nat, b: nat)
    ensures 0 <= a * b
  {
  }

  /** Row `i` of `n` rows of `row` elements lies inside them. */
  lemma RowBound(n: nat, row: nat, i: nat)
    requires i < n
    ensures 0 <= i * row <= (i + 1) * row <= n * row && (i + 1) * row - i * row == row
  {
    MulMono(i, i + 1, row);
    MulMono(i + 1, n, row);
  }

  /** Element (r, c) of a rows × cols matrix has the row-major index r * cols + c, and only it does. */
  lemma Index2(rows: nat, cols: nat, r: nat, c: nat)
    requires r < rows && c < cols
    ensures 0 <= r * cols + c < rows * cols
    ensures (r * cols + c) / cols == r && (r * cols + c) % cols == c
  {
    RowBound(rows, cols, r);
    DivUnique(r * cols + c, cols, r, c);
  }

  lemma DivUnique(x: int, d: int, q: int, r: int)
    requires 0 < d && x == q * d + r && 0 <= r < d
    ensures x / d == q && x % d == r
  {
    var q', r' := x / d, x % d;
    assert (q - q') * d == r' - r;
    if q - q' >= 1 {
      MulMono(1, q - q', d);
      assert false;
    } else if q - q' <= -1 {
      MulMono(1, q' - q, d);
      assert false;
    }
  }

  lemma DivNonNegative(x: nat, d: nat)
    requires 0 < d
    ensures 0 <= x / d <= x && 0 <= x % d < d
  {
    MulMono(1, d, x / d);
  }

  /** An index below rows * cols, split into its row and column. */
  lemma Split2(rows: nat, cols: nat, i: nat)
    requires i < rows * cols
    ensures 0 < cols && 0 <= i / cols < rows && 0 <= i % cols < cols && i == (i / cols) * cols + i % cols
  {
    if cols == 0 {
      assert false;
    }
    if i / cols >= rows {
      MulMono(rows, i / cols, cols);
      assert false;
    }
  }

  /** Rows of `c` blocks of `b`: the block of an element, counted over all rows, and its place in the block. */
  lemma Nested(c: nat, b: nat, row: nat, col: nat)
    requires 0 < b && col < c * b
    ensures 0 <= col / b < c && 0 <= col % b < b && 0 <= row * (c * b) + col
    ensures (row * (c * b) + col) / b == row * c + col / b
    ensures (row * (c * b) + col) % b == col % b
    ensures row * (c * b) + col == (row * c + col / b) * b + col % b
  {
    Split2(c, b, col);
    Associate(row, c, b);
    Distribute(row * c, col / b, b);
    NonNegative(row, c * b);
    DivUnique(row * (c * b) + col, b, row * c + col / b, col % b);
  }

  lemma Associate(x: int, y: int, z: int)
    ensures x * (y * z) == x * y * z
  {
  }

  lemma Distribute(x: int, y: int, z: int)
    ensures (x + y) * z == x * z + y * z
  {
  }

  lemma OneMore(n: nat, k: nat)
    ensures (n + 1) * k == n * k + k
  {
  }
}
