/** The reward-box grid of `collect_daily_reward` (main.py:200-210,
    main.py:235-242): tap points evenly spread over a rectangle, with integer
    step sizes, visited row by row. */
module RewardGrid {
  import opened Events

  /** A rectangle `[startX, endX] x [startY, endY]` holding `cols` boxes per
      row and `rows` rows. */
  datatype Grid = Grid(startX: int, endX: int, startY: int, endY: int, cols: nat, rows: nat)

  /** The reward grid of main.py:201-206. */
  const DailyReward: Grid := Grid(530, 1490, 380, 850, 7, 4)

  /** A count of one would divide by zero in main.py:209-210. */
  predicate Divisible(g: Grid) {
    g.cols != 1 && g.rows != 1
  }

  /** `(end - start) // (n - 1)`. Python's `//` floors; for the divisors that
      occur (positive, or -1 when `n` is 0) Dafny's `/` gives the same value. */
  function Step(start: int, end: int, n: nat): (step: int)
    requires n != 1
    ensures n >= 2 ==> (n - 1) * step <= end - start < (n - 1) * step + (n - 1)
    ensures n == 0 ==> step == start - end
  {
    (end - start) / (n - 1)
  }

  function StepX(g: Grid): int requires Divisible(g) { Step(g.startX, g.endX, g.cols) }

  function StepY(g: Grid): int requires Divisible(g) { Step(g.startY, g.endY, g.rows) }

  /** The box in row `row` and column `col` (main.py:238-239). */
  function Point(g: Grid, row: int, col: int): (p: Event)
    requires Divisible(g)
    ensures p.Tap?
    ensures && 0 <= row < g.rows && 0 <= col < g.cols
            && g.startX <= g.endX && g.startY <= g.endY
            ==> g.startX <= p.x <= g.endX && g.startY <= p.y <= g.endY
  {
    var p := Tap(g.startX + col * StepX(g), g.startY + row * StepY(g));
    if 0 <= row < g.rows && 0 <= col < g.cols && g.startX <= g.endX && g.startY <= g.endY then
      StepFits(g.startX, g.endX, g.cols, col);
      StepFits(g.startY, g.endY, g.rows, row);
      p
    else
      p
  }

  /** The taps of one pass of the inner loop, main.py:237-242. */
  function Row(g: Grid, row: int): (r: seq<Event>)
    requires Divisible(g)
    ensures |r| == g.cols && AllTaps(r)
  {
    seq(g.cols, col requires 0 <= col < g.cols => Point(g, row, col))
  }

  /** The taps of the first `n` passes of the outer loop, main.py:236. */
  function Rows(g: Grid, n: nat): (r: seq<Event>)
    requires Divisible(g)
    ensures |r| == n * g.cols && AllTaps(r)
  {
    if n == 0 then [] else Rows(g, n - 1) + Row(g, n - 1)
  }

  /** Every tap the grid loop emits, in order. */
  function Taps(g: Grid): seq<Event>
    requires Divisible(g)
  {
    Rows(g, g.rows)
  }

  /** The invariant step of the inner loop at main.py:237. */
  lemma RowSnoc(s: seq<Event>, g: Grid, row: int, col: nat)
    requires Divisible(g) && col < g.cols
    ensures s + Row(g, row)[..col] + [Point(g, row, col)] == s + Row(g, row)[..col + 1]
  {
    assert Row(g, row)[..col + 1] == Row(g, row)[..col] + [Point(g, row, col)];
  }

  /** The invariant step of the outer loop at main.py:236. */
  lemma RowsSnoc(s: seq<Event>, g: Grid, row: nat)
    requires Divisible(g)
    ensures s + Rows(g, row) + Row(g, row)[..g.cols] == s + Rows(g, row + 1)
  {
    assert Row(g, row)[..g.cols] == Row(g, row);
  }

  /** Tap `k` is the box in row `k / cols` and column `k % cols`: the boxes
      are visited in row-major order. */
  lemma {:induction false} RowMajor(g: Grid, n: nat, k: nat)
    requires Divisible(g) && k < n * g.cols
    ensures Rows(g, n)[k] == Point(g, k / g.cols, k % g.cols)
  {
    var m := (n - 1) * g.cols;
    assert n * g.cols == m + g.cols;
    if k < m {
      RowMajor(g, n - 1, k);
    } else {
      ModOfRemainder(k, g.cols, n - 1);
    }
  }

  /** Steps of the first `n - 1` boxes never overshoot the far edge, and fall
      short of it by less than `n - 1` pixels. */
  lemma StepFits(start: int, end: int, n: nat, i: int)
    requires n >= 2 && start <= end && 0 <= i < n
    ensures 0 <= Step(start, end, n)
    ensures start <= start + i * Step(start, end, n) <= end
    ensures end - (start + (n - 1) * Step(start, end, n)) < n - 1
  {
    var step := Step(start, end, n);
    assert (n - 1) * step + (end - start) % (n - 1) == end - start;
    assert 0 <= i * step;
    assert i * step <= (n - 1) * step;
  }

  lemma QuotientBelow(k: int, d: int, n: int)
    requires d > 0 && 0 <= k < n * d
    ensures 0 <= k / d < n
  {
    var q := k / d;
    assert q * d + k % d == k;
  }

  /** Every tap lies inside the rectangle. */
  lemma PointsInBox(g: Grid, k: nat)
    requires Divisible(g) && g.startX <= g.endX && g.startY <= g.endY
    requires k < |Taps(g)|
    ensures Taps(g)[k].Tap?
    ensures g.startX <= Taps(g)[k].x <= g.endX
    ensures g.startY <= Taps(g)[k].y <= g.endY
  {
    RowMajor(g, g.rows, k);
    QuotientBelow(k, g.cols, g.rows);
  }
}
