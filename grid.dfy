/**
 * Square tags. A grid `width` squares wide numbers its squares from 1 in row-major order:
 * the square in row `row` and column `col` (both from 0) has tag `width * row + col + 1`,
 * and a tag is split back as row `(tag - 1) / width`, column `(tag - 1) % width`.
 */
module Grid {

  lemma MulMonotonic(w: nat, a: int, b: int)
    requires a <= b
    ensures w * a <= w * b
  {
    assert w * b - w * a == w * (b - a);
  }

  /** Splitting an in-range tag gives a row and a column inside the grid that name that tag again. */
  lemma TagDecomposition(tag: int, height: nat, width: nat)
    requires 1 <= tag <= height * width
    ensures width > 0
    ensures 0 <= (tag - 1) / width < height
    ensures 0 <= (tag - 1) % width < width
    ensures width * ((tag - 1) / width) + (tag - 1) % width + 1 == tag
  {
    var q, r := (tag - 1) / width, (tag - 1) % width;
    assert tag - 1 == width * q + r;
    if q >= height {
      MulMonotonic(width, height, q);
      assert false;
    }
  }

  /** Two squares of a grid `width` wide with the same tag are the same square. */
  lemma TagUnique(width: nat, r1: int, c1: int, r2: int, c2: int)
    requires 0 <= c1 < width && 0 <= c2 < width
    requires width * r1 + c1 == width * r2 + c2
    ensures r1 == r2 && c1 == c2
  {
    if r1 < r2 {
      MulMonotonic(width, r1 + 1, r2);
      assert false;
    } else if r2 < r1 {
      MulMonotonic(width, r2 + 1, r1);
      assert false;
    }
  }

  /** The tag of a square inside the grid is in range and splits back into that square. */
  lemma TagOfSquare(row: int, col: int, height: nat, width: nat)
    requires 0 <= row < height && 0 <= col < width
    ensures 1 <= width * row + col + 1 <= height * width
    ensures (width * row + col) / width == row
    ensures (width * row + col) % width == col
  {
    MulMonotonic(width, row + 1, height);
    var t := width * row + col;
    assert t == width * (t / width) + t % width;
    TagUnique(width, row, col, t / width, t % width);
  }
}
