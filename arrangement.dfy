/**
 * The wiring topologies of an LED strip laid out as a width x height matrix: which physical
 * LED number the logical pixel (x, y) is wired to.
 */
module Arrangement {

  /**
   * `LedStripArrangementEnum`. `Unrecognized` stands for any other value the enum-typed
   * property can hold, which the source handles in the `default` branch of its switch.
   */
  datatype LedStripArrangement =
    | LeftRightTopDown | LeftRightBottomUp | RightLeftTopDown | RightLeftBottomUp
    | TopDownLeftRight | TopDownRightLeft | BottomUpLeftRight | BottomUpRightLeft
    | LeftRightAlternateTopDown | LeftRightAlternateBottomUp
    | RightLeftAlternateTopDown | RightLeftAlternateBottomUp
    | TopDownAlternateLeftRight | TopDownAlternateRightLeft
    | BottomUpAlternateLeftRight | BottomUpAlternateRightLeft
    | Unrecognized(code: int)

  /**
   * The LED number of pixel (x, y), by the formula of the arrangement. Each formula numbers
   * either row by row (`RowFirst`, the source's `Y * Width + X` shapes) or column by column
   * (`ColumnFirst`, the `X * Height + Y` shapes), after flipping the axes it runs backwards.
   * `v % 2` stands for the source's `v & 1`, which agrees with it on the non-negative values
   * it is applied to.
   */
  function LedIndex(arr: LedStripArrangement, w: nat, h: nat, x: nat, y: nat): (n: int)
    requires x < w && y < h
    ensures 0 <= n < w * h
  {
    match arr
    case LeftRightTopDown => RowFirst(y, x, w, h)
    case LeftRightBottomUp => RowFirst(h - 1 - y, x, w, h)
    case RightLeftTopDown => RowFirst(y, w - 1 - x, w, h)
    case RightLeftBottomUp => RowFirst(h - 1 - y, w - 1 - x, w, h)
    case TopDownLeftRight => ColumnFirst(x, y, w, h)
    case TopDownRightLeft => ColumnFirst(w - 1 - x, y, w, h)
    case BottomUpLeftRight => ColumnFirst(x, h - 1 - y, w, h)
    case BottomUpRightLeft => ColumnFirst(w - 1 - x, h - 1 - y, w, h)
    case LeftRightAlternateTopDown => RowFirst(y, if y % 2 == 0 then x else w - 1 - x, w, h)
    case LeftRightAlternateBottomUp => RowFirst(h - 1 - y, if (h - 1 - y) % 2 == 0 then x else w - 1 - x, w, h)
    case RightLeftAlternateTopDown => RowFirst(y, if y % 2 == 1 then x else w - 1 - x, w, h)
    case RightLeftAlternateBottomUp => RowFirst(h - 1 - y, if (h - 1 - y) % 2 == 1 then x else w - 1 - x, w, h)
    case TopDownAlternateLeftRight => ColumnFirst(x, if x % 2 == 0 then y else h - 1 - y, w, h)
    case TopDownAlternateRightLeft => ColumnFirst(w - 1 - x, if x % 2 == 1 then y else h - 1 - y, w, h)
    case BottomUpAlternateLeftRight => ColumnFirst(x, if x % 2 == 1 then y else h - 1 - y, w, h)
    case BottomUpAlternateRightLeft => ColumnFirst(w - 1 - x, if x % 2 == 0 then y else h - 1 - y, w, h)
    case Unrecognized(_) => RowFirst(y, x, w, h)
  }

  /** The number of the LED in row `row`, column `col` when the LEDs run row by row: `row * w + col`. */
  function RowFirst(row: int, col: int, w: nat, h: nat): (n: int)
    requires 0 <= row < h && 0 <= col < w
    ensures 0 <= n < w * h
  {
    WithinGrid(row, col, w, h);
    row * w + col
  }

  /** The number of the LED in column `col`, row `row` when the LEDs run column by column: `col * h + row`. */
  function ColumnFirst(col: int, row: int, w: nat, h: nat): (n: int)
    requires 0 <= col < w && 0 <= row < h
    ensures 0 <= n < w * h
  {
    WithinGrid(col, row, h, w);
    col * h + row
  }

  /** q * d + r, with q below m and r below d, lies in [0, m * d), whichever way round m * d is written. */
  lemma WithinGrid(q: int, r: int, d: int, m: int)
    requires 0 <= q < m && 0 <= r < d
    ensures 0 <= q * d + r < m * d && q * d + r < d * m
  {
    MulAtLeast(m - q, d);
    assert m * d == d * m;
  }

  /** Whether building the table with this arrangement goes through the diagnostic fallback. */
  predicate IsFallback(arr: LedStripArrangement) {
    arr.Unrecognized?
  }

  /**
   * The pixel wired to LED number n: the inverse of `LedIndex`. Row-major arrangements read
   * the row and column off n / w and n % w, column-major ones off n / h and n % h.
   */
  function Coord(arr: LedStripArrangement, w: nat, h: nat, n: int): (c: (nat, nat))
    requires 0 <= n < w * h
    ensures c.0 < w && c.1 < h
  {
    QuotientBounds(n, w, h);
    var row, col := n / w, n % w;
    var line, pos := n / h, n % h;
    match arr
    case LeftRightTopDown => (col, row)
    case LeftRightBottomUp => (col, h - 1 - row)
    case RightLeftTopDown => (w - 1 - col, row)
    case RightLeftBottomUp => (w - 1 - col, h - 1 - row)
    case TopDownLeftRight => (line, pos)
    case TopDownRightLeft => (w - 1 - line, pos)
    case BottomUpLeftRight => (line, h - 1 - pos)
    case BottomUpRightLeft => (w - 1 - line, h - 1 - pos)
    case LeftRightAlternateTopDown => (if row % 2 == 0 then col else w - 1 - col, row)
    case LeftRightAlternateBottomUp => (if row % 2 == 0 then col else w - 1 - col, h - 1 - row)
    case RightLeftAlternateTopDown => (if row % 2 == 1 then col else w - 1 - col, row)
    case RightLeftAlternateBottomUp => (if row % 2 == 1 then col else w - 1 - col, h - 1 - row)
    case TopDownAlternateLeftRight => (line, if line % 2 == 0 then pos else h - 1 - pos)
    case TopDownAlternateRightLeft =>
      var x := w - 1 - line; (x, if x % 2 == 1 then pos else h - 1 - pos)
    case BottomUpAlternateLeftRight => (line, if line % 2 == 1 then pos else h - 1 - pos)
    case BottomUpAlternateRightLeft =>
      var x := w - 1 - line; (x, if x % 2 == 0 then pos else h - 1 - pos)
    case Unrecognized(_) => (col, row)
  }

  // Arithmetic facts about numbers written as q * d + r with 0 <= r < d.

  lemma MulAtLeast(k: int, d: int)
    requires k >= 1 && d >= 0
    ensures k * d >= d
  {
  }

  /** q * d + r, with q below m and r below d, lies below m * d and has quotient q and remainder r. */
  lemma Decompose(q: int, r: int, d: int, m: int)
    requires 0 <= q < m && 0 <= r < d
    ensures 0 <= q * d + r < m * d && m * d == d * m && q * d == d * q
    ensures (q * d + r) / d == q && (q * d + r) % d == r
  {
    MulAtLeast(m - q, d);
    var n := q * d + r;
    var k := n / d - q;
    assert d * k == r - n % d;
    if k >= 1 {
      MulAtLeast(k, d);
    } else if k <= -1 {
      MulAtLeast(-k, d);
    }
  }

  /** A number below w * h is quotient times divisor plus remainder, with quotient bounds. */
  lemma QuotientBounds(n: int, w: nat, h: nat)
    requires 0 <= n < w * h
    ensures w > 0 && h > 0
    ensures n == (n / w) * w + n % w && 0 <= n / w < h && 0 <= n % w < w
    ensures n == (n / h) * h + n % h && 0 <= n / h < w && 0 <= n % h < h
  {
    assert w > 0 && h > 0;
    DivideBelow(n, w, h);
    assert w * h == h * w;
    DivideBelow(n, h, w);
  }

  /** A number below m * d has a quotient by d below m. */
  lemma DivideBelow(n: int, d: int, m: int)
    requires d > 0 && 0 <= n < m * d
    ensures n == (n / d) * d + n % d && 0 <= n / d < m && 0 <= n % d < d
  {
    var q := n / d;
    assert d * q == q * d;
    if q >= m {
      MulMonotone(m, q, d);
    }
  }

  lemma MulMonotone(a: int, b: int, d: int)
    requires a <= b && d >= 0
    ensures a * d <= b * d
  {
  }

  /**
   * Every pixel is wired to an LED number in [0, w * h), and `Coord` recovers the pixel from
   * it; so distinct pixels are wired to distinct LEDs.
   */
  lemma CoordOfLedIndex(arr: LedStripArrangement, w: nat, h: nat, x: nat, y: nat)
    requires x < w && y < h
    ensures 0 <= LedIndex(arr, w, h, x, y) < w * h
    ensures Coord(arr, w, h, LedIndex(arr, w, h, x, y)) == (x, y)
  {
    match arr
    case LeftRightTopDown => RowMajorRoundTrip(arr, w, h, x, y);
    case LeftRightBottomUp => RowMajorRoundTrip(arr, w, h, x, y);
    case RightLeftTopDown => RowMajorRoundTrip(arr, w, h, x, y);
    case RightLeftBottomUp => RowMajorRoundTrip(arr, w, h, x, y);
    case TopDownLeftRight => ColumnMajorRoundTrip(arr, w, h, x, y);
    case TopDownRightLeft => ColumnMajorRoundTrip(arr, w, h, x, y);
    case BottomUpLeftRight => ColumnMajorRoundTrip(arr, w, h, x, y);
    case BottomUpRightLeft => ColumnMajorRoundTrip(arr, w, h, x, y);
    case LeftRightAlternateTopDown => RowSerpentineRoundTrip(arr, w, h, x, y);
    case LeftRightAlternateBottomUp => RowSerpentineRoundTrip(arr, w, h, x, y);
    case RightLeftAlternateTopDown => RowSerpentineRoundTrip(arr, w, h, x, y);
    case RightLeftAlternateBottomUp => RowSerpentineRoundTrip(arr, w, h, x, y);
    case TopDownAlternateLeftRight => ColumnSerpentineRoundTrip(arr, w, h, x, y);
    case TopDownAlternateRightLeft => ColumnSerpentineRoundTrip(arr, w, h, x, y);
    case BottomUpAlternateLeftRight => ColumnSerpentineRoundTrip(arr, w, h, x, y);
    case BottomUpAlternateRightLeft => ColumnSerpentineRoundTrip(arr, w, h, x, y);
    case Unrecognized(_) => RowMajorRoundTrip(arr, w, h, x, y);
  }

  lemma RowMajorRoundTrip(arr: LedStripArrangement, w: nat, h: nat, x: nat, y: nat)
    requires x < w && y < h
    requires arr.LeftRightTopDown? || arr.LeftRightBottomUp? || arr.RightLeftTopDown?
          || arr.RightLeftBottomUp? || arr.Unrecognized?
    ensures 0 <= LedIndex(arr, w, h, x, y) < w * h
    ensures Coord(arr, w, h, LedIndex(arr, w, h, x, y)) == (x, y)
  {
    var row := if arr.LeftRightBottomUp? || arr.RightLeftBottomUp? then h - 1 - y else y;
    var col := if arr.RightLeftTopDown? || arr.RightLeftBottomUp? then w - 1 - x else x;
    Decompose(row, col, w, h);
    assert LedIndex(arr, w, h, x, y) == row * w + col;
  }

  lemma ColumnMajorRoundTrip(arr: LedStripArrangement, w: nat, h: nat, x: nat, y: nat)
    requires x < w && y < h
    requires arr.TopDownLeftRight? || arr.TopDownRightLeft? || arr.BottomUpLeftRight?
          || arr.BottomUpRightLeft?
    ensures 0 <= LedIndex(arr, w, h, x, y) < w * h
    ensures Coord(arr, w, h, LedIndex(arr, w, h, x, y)) == (x, y)
  {
    var line := if arr.TopDownRightLeft? || arr.BottomUpRightLeft? then w - 1 - x else x;
    var pos := if arr.BottomUpLeftRight? || arr.BottomUpRightLeft? then h - 1 - y else y;
    Decompose(line, pos, h, w);
    assert LedIndex(arr, w, h, x, y) == line * h + pos;
  }

  lemma RowSerpentineRoundTrip(arr: LedStripArrangement, w: nat, h: nat, x: nat, y: nat)
    requires x < w && y < h
    requires arr.LeftRightAlternateTopDown? || arr.LeftRightAlternateBottomUp?
          || arr.RightLeftAlternateTopDown? || arr.RightLeftAlternateBottomUp?
    ensures 0 <= LedIndex(arr, w, h, x, y) < w * h
    ensures Coord(arr, w, h, LedIndex(arr, w, h, x, y)) == (x, y)
  {
    var row := if arr.LeftRightAlternateBottomUp? || arr.RightLeftAlternateBottomUp? then h - 1 - y else y;
    var forward := if arr.LeftRightAlternateTopDown? || arr.LeftRightAlternateBottomUp? then row % 2 == 0 else row % 2 == 1;
    var col := if forward then x else w - 1 - x;
    Decompose(row, col, w, h);
    assert LedIndex(arr, w, h, x, y) == row * w + col;
  }

  lemma ColumnSerpentineRoundTrip(arr: LedStripArrangement, w: nat, h: nat, x: nat, y: nat)
    requires x < w && y < h
    requires arr.TopDownAlternateLeftRight? || arr.TopDownAlternateRightLeft?
          || arr.BottomUpAlternateLeftRight? || arr.BottomUpAlternateRightLeft?
    ensures 0 <= LedIndex(arr, w, h, x, y) < w * h
    ensures Coord(arr, w, h, LedIndex(arr, w, h, x, y)) == (x, y)
  {
    var line := if arr.TopDownAlternateRightLeft? || arr.BottomUpAlternateRightLeft? then w - 1 - x else x;
    var forward := if arr.TopDownAlternateLeftRight? || arr.BottomUpAlternateRightLeft? then x % 2 == 0 else x % 2 == 1;
    var pos := if forward then y else h - 1 - y;
    Decompose(line, pos, h, w);
    assert LedIndex(arr, w, h, x, y) == line * h + pos;
  }

  /** Every LED number in [0, w * h) is wired to some pixel: the one `Coord` names. */
  lemma LedIndexOfCoord(arr: LedStripArrangement, w: nat, h: nat, n: int)
    requires 0 <= n < w * h
    ensures LedIndex(arr, w, h, Coord(arr, w, h, n).0, Coord(arr, w, h, n).1) == n
  {
    match arr
    case LeftRightTopDown => RowMajorInverse(arr, w, h, n);
    case LeftRightBottomUp => RowMajorInverse(arr, w, h, n);
    case RightLeftTopDown => RowMajorInverse(arr, w, h, n);
    case RightLeftBottomUp => RowMajorInverse(arr, w, h, n);
    case TopDownLeftRight => ColumnMajorInverse(arr, w, h, n);
    case TopDownRightLeft => ColumnMajorInverse(arr, w, h, n);
    case BottomUpLeftRight => ColumnMajorInverse(arr, w, h, n);
    case BottomUpRightLeft => ColumnMajorInverse(arr, w, h, n);
    case LeftRightAlternateTopDown => RowSerpentineInverse(arr, w, h, n);
    case LeftRightAlternateBottomUp => RowSerpentineInverse(arr, w, h, n);
    case RightLeftAlternateTopDown => RowSerpentineInverse(arr, w, h, n);
    case RightLeftAlternateBottomUp => RowSerpentineInverse(arr, w, h, n);
    case TopDownAlternateLeftRight => ColumnSerpentineInverse(arr, w, h, n);
    case TopDownAlternateRightLeft => ColumnSerpentineInverse(arr, w, h, n);
    case BottomUpAlternateLeftRight => ColumnSerpentineInverse(arr, w, h, n);
    case BottomUpAlternateRightLeft => ColumnSerpentineInverse(arr, w, h, n);
    case Unrecognized(_) => RowMajorInverse(arr, w, h, n);
  }

  lemma RowMajorInverse(arr: LedStripArrangement, w: nat, h: nat, n: int)
    requires 0 <= n < w * h
    requires arr.LeftRightTopDown? || arr.LeftRightBottomUp? || arr.RightLeftTopDown?
          || arr.RightLeftBottomUp? || arr.Unrecognized?
    ensures LedIndex(arr, w, h, Coord(arr, w, h, n).0, Coord(arr, w, h, n).1) == n
  {
    QuotientBounds(n, w, h);
    var row, col := n / w, n % w;
    assert w * row == row * w;
    var c := Coord(arr, w, h, n);
    assert LedIndex(arr, w, h, c.0, c.1) == row * w + col;
  }

  lemma ColumnMajorInverse(arr: LedStripArrangement, w: nat, h: nat, n: int)
    requires 0 <= n < w * h
    requires arr.TopDownLeftRight? || arr.TopDownRightLeft? || arr.BottomUpLeftRight?
          || arr.BottomUpRightLeft?
    ensures LedIndex(arr, w, h, Coord(arr, w, h, n).0, Coord(arr, w, h, n).1) == n
  {
    QuotientBounds(n, w, h);
    var line, pos := n / h, n % h;
    assert h * line == line * h;
    var c := Coord(arr, w, h, n);
    assert LedIndex(arr, w, h, c.0, c.1) == line * h + pos;
  }

  lemma RowSerpentineInverse(arr: LedStripArrangement, w: nat, h: nat, n: int)
    requires 0 <= n < w * h
    requires arr.LeftRightAlternateTopDown? || arr.LeftRightAlternateBottomUp?
          || arr.RightLeftAlternateTopDown? || arr.RightLeftAlternateBottomUp?
    ensures LedIndex(arr, w, h, Coord(arr, w, h, n).0, Coord(arr, w, h, n).1) == n
  {
    QuotientBounds(n, w, h);
    var row, col := n / w, n % w;
    assert w * row == row * w;
    var c := Coord(arr, w, h, n);
    assert LedIndex(arr, w, h, c.0, c.1) == row * w + col;
  }

  lemma ColumnSerpentineInverse(arr: LedStripArrangement, w: nat, h: nat, n: int)
    requires 0 <= n < w * h
    requires arr.TopDownAlternateLeftRight? || arr.TopDownAlternateRightLeft?
          || arr.BottomUpAlternateLeftRight? || arr.BottomUpAlternateRightLeft?
    ensures LedIndex(arr, w, h, Coord(arr, w, h, n).0, Coord(arr, w, h, n).1) == n
  {
    QuotientBounds(n, w, h);
    var line, pos := n / h, n % h;
    assert h * line == line * h;
    var c := Coord(arr, w, h, n);
    assert LedIndex(arr, w, h, c.0, c.1) == line * h + pos;
  }

  /** Two pixels wired to the same LED are the same pixel. */
  lemma LedIndexInjective(arr: LedStripArrangement, w: nat, h: nat, x1: nat, y1: nat, x2: nat, y2: nat)
    requires x1 < w && y1 < h && x2 < w && y2 < h
    requires LedIndex(arr, w, h, x1, y1) == LedIndex(arr, w, h, x2, y2)
    ensures x1 == x2 && y1 == y2
  {
    CoordOfLedIndex(arr, w, h, x1, y1);
    CoordOfLedIndex(arr, w, h, x2, y2);
  }

  /** An unrecognized arrangement is wired like LeftRightTopDown: row by row, left to right. */
  lemma UnrecognizedIsLeftRightTopDown(code: int, w: nat, h: nat, x: nat, y: nat)
    requires x < w && y < h
    ensures LedIndex(Unrecognized(code), w, h, x, y) == LedIndex(LeftRightTopDown, w, h, x, y) == y * w + x
  {
  }

  /**
   * The LED numbers of the six pixels of a 3 x 2 strip, read row by row:
   * (0, 0), (1, 0), (2, 0), (0, 1), (1, 1), (2, 1).
   */
  function ThreeByTwo(arr: LedStripArrangement): (s: seq<int>)
    ensures |s| == 6
  {
    [LedIndex(arr, 3, 2, 0, 0), LedIndex(arr, 3, 2, 1, 0), LedIndex(arr, 3, 2, 2, 0),
     LedIndex(arr, 3, 2, 0, 1), LedIndex(arr, 3, 2, 1, 1), LedIndex(arr, 3, 2, 2, 1)]
  }

  /** The 3 x 2 numberings, in the reading order of `ThreeByTwo`, of the row-by-row arrangements. */
  lemma ThreeByTwoRows(code: int)
    ensures ThreeByTwo(LeftRightTopDown) == ThreeByTwo(Unrecognized(code)) == [0, 1, 2, 3, 4, 5]
    ensures ThreeByTwo(LeftRightBottomUp) == [3, 4, 5, 0, 1, 2]
    ensures ThreeByTwo(RightLeftTopDown) == [2, 1, 0, 5, 4, 3]
    ensures ThreeByTwo(RightLeftBottomUp) == [5, 4, 3, 2, 1, 0]
  {
    assert RowFirst(0, 0, 3, 2) == 0 * 3 + 0 == 0 && RowFirst(0, 1, 3, 2) == 0 * 3 + 1 == 1;
    assert RowFirst(0, 2, 3, 2) == 0 * 3 + 2 == 2 && RowFirst(1, 0, 3, 2) == 1 * 3 + 0 == 3;
    assert RowFirst(1, 1, 3, 2) == 1 * 3 + 1 == 4 && RowFirst(1, 2, 3, 2) == 1 * 3 + 2 == 5;
  }

  /** The 3 x 2 numberings of the column-by-column arrangements. */
  lemma ThreeByTwoColumns()
    ensures ThreeByTwo(TopDownLeftRight) == [0, 2, 4, 1, 3, 5]
    ensures ThreeByTwo(TopDownRightLeft) == [4, 2, 0, 5, 3, 1]
    ensures ThreeByTwo(BottomUpLeftRight) == [1, 3, 5, 0, 2, 4]
    ensures ThreeByTwo(BottomUpRightLeft) == [5, 3, 1, 4, 2, 0]
  {
    assert ColumnFirst(0, 0, 3, 2) == 0 * 2 + 0 == 0 && ColumnFirst(0, 1, 3, 2) == 0 * 2 + 1 == 1;
    assert ColumnFirst(1, 0, 3, 2) == 1 * 2 + 0 == 2 && ColumnFirst(1, 1, 3, 2) == 1 * 2 + 1 == 3;
    assert ColumnFirst(2, 0, 3, 2) == 2 * 2 + 0 == 4 && ColumnFirst(2, 1, 3, 2) == 2 * 2 + 1 == 5;
  }

  /** The 3 x 2 numberings of the row serpentines: every other row runs backwards. */
  lemma ThreeByTwoRowSerpentines()
    ensures ThreeByTwo(LeftRightAlternateTopDown) == [0, 1, 2, 5, 4, 3]
    ensures ThreeByTwo(LeftRightAlternateBottomUp) == [5, 4, 3, 0, 1, 2]
    ensures ThreeByTwo(RightLeftAlternateTopDown) == [2, 1, 0, 3, 4, 5]
    ensures ThreeByTwo(RightLeftAlternateBottomUp) == [3, 4, 5, 2, 1, 0]
  {
    assert RowFirst(0, 0, 3, 2) == 0 * 3 + 0 == 0 && RowFirst(0, 1, 3, 2) == 0 * 3 + 1 == 1;
    assert RowFirst(0, 2, 3, 2) == 0 * 3 + 2 == 2 && RowFirst(1, 0, 3, 2) == 1 * 3 + 0 == 3;
    assert RowFirst(1, 1, 3, 2) == 1 * 3 + 1 == 4 && RowFirst(1, 2, 3, 2) == 1 * 3 + 2 == 5;
  }

  /** The 3 x 2 numberings of the column serpentines: every other column runs backwards. */
  lemma ThreeByTwoColumnSerpentines()
    ensures ThreeByTwo(TopDownAlternateLeftRight) == [0, 3, 4, 1, 2, 5]
    ensures ThreeByTwo(TopDownAlternateRightLeft) == [5, 2, 1, 4, 3, 0]
    ensures ThreeByTwo(BottomUpAlternateLeftRight) == [1, 2, 5, 0, 3, 4]
    ensures ThreeByTwo(BottomUpAlternateRightLeft) == [4, 3, 0, 5, 2, 1]
  {
    assert ColumnFirst(0, 0, 3, 2) == 0 * 2 + 0 == 0 && ColumnFirst(0, 1, 3, 2) == 0 * 2 + 1 == 1;
    assert ColumnFirst(1, 0, 3, 2) == 1 * 2 + 0 == 2 && ColumnFirst(1, 1, 3, 2) == 1 * 2 + 1 == 3;
    assert ColumnFirst(2, 0, 3, 2) == 2 * 2 + 0 == 4 && ColumnFirst(2, 1, 3, 2) == 2 * 2 + 1 == 5;
  }
}
