/** The 2048 game: the board is changed in place, tile by tile, in edge-first order. */
module Game2048 {
  import opened Common
  import opened Lines

  datatype Dir = Up | Down | Left | Right

  const WIN_VALUE := 2048

  /** A board as rows of cells. */
  type Board = seq<seq<Cell>>

  predicate Square(m: Board, n: nat) {
    |m| == n && forall r | 0 <= r < n :: |m[r]| == n
  }

  // ---- Lines of a board in a direction ----

  /** The row of position p, counted from the target edge, on a line. */
  function RowAt(n: nat, dir: Dir, line: int, p: int): int {
    match dir
    case Up => p
    case Down => n - 1 - p
    case _ => line
  }

  function ColAt(n: nat, dir: Dir, line: int, p: int): int {
    match dir
    case Left => p
    case Right => n - 1 - p
    case _ => line
  }

  function DeltaRow(dir: Dir): int { match dir case Up => -1 case Down => 1 case _ => 0 }

  function DeltaCol(dir: Dir): int { match dir case Left => -1 case Right => 1 case _ => 0 }

  ghost function LineOf(m: Board, n: nat, dir: Dir, line: nat): (r: seq<Cell>)
    requires Square(m, n) && line < n
    ensures |r| == n && forall p | 0 <= p < n :: r[p] == m[RowAt(n, dir, line, p)][ColAt(n, dir, line, p)]
  {
    seq(n, p requires 0 <= p < n => m[RowAt(n, dir, line, p)][ColAt(n, dir, line, p)])
  }

  // ---- Totals over a board ----

  ghost function RowTotal(f: int -> int, row: seq<Cell>): int {
    SumOf(f, Values(row))
  }

  /** The sum of f over all cells, line by line in a direction. */
  ghost function LinesTotal(f: int -> int, m: Board, n: nat, dir: Dir, k: nat): int
    requires Square(m, n) && k <= n
  {
    if k == 0 then 0 else LinesTotal(f, m, n, dir, k - 1) + RowTotal(f, LineOf(m, n, dir, k - 1))
  }

  ghost function Total(f: int -> int, m: Board, n: nat): int
    requires Square(m, n)
  {
    LinesTotal(f, m, n, Left, n)
  }

  /** The sum over the corner of the first rows and columns. */
  ghost function CornerTotal(f: int -> int, m: Board, n: nat, rows: nat, cols: nat): int
    requires Square(m, n) && rows <= n && cols <= n
    decreases rows
  {
    if rows == 0 then 0 else CornerTotal(f, m, n, rows - 1, cols) + SumOf(f, Values(m[rows - 1][..cols]))
  }

  lemma {:induction false} CornerAddsColumn(f: int -> int, m: Board, n: nat, rows: nat, cols: nat)
    requires Square(m, n) && rows <= n && 0 < cols <= n
    ensures CornerTotal(f, m, n, rows, cols)
            == CornerTotal(f, m, n, rows, cols - 1) + SumOf(f, Values(LineOf(m, n, Up, cols - 1)[..rows]))
    decreases rows
  {
    if rows > 0 {
      CornerAddsColumn(f, m, n, rows - 1, cols);
      var row, col := m[rows - 1], LineOf(m, n, Up, cols - 1);
      assert Values(row[..cols]) == Values(row[..cols - 1]) + [ValueOf(row[cols - 1])];
      SumOfAppend(f, Values(row[..cols - 1]), ValueOf(row[cols - 1]));
      assert Values(col[..rows]) == Values(col[..rows - 1]) + [ValueOf(col[rows - 1])];
      SumOfAppend(f, Values(col[..rows - 1]), ValueOf(col[rows - 1]));
    }
  }

  lemma {:induction false} ColumnsAreCorner(f: int -> int, m: Board, n: nat, k: nat)
    requires Square(m, n) && k <= n
    ensures LinesTotal(f, m, n, Up, k) == CornerTotal(f, m, n, n, k)
  {
    if k == 0 {
      EmptyCorner(f, m, n, n);
    } else {
      var col := LineOf(m, n, Up, k - 1);
      ColumnsAreCorner(f, m, n, k - 1);
      CornerAddsColumn(f, m, n, n, k);
      assert col[..n] == col;
    }
  }

  lemma {:induction false} EmptyCorner(f: int -> int, m: Board, n: nat, rows: nat)
    requires Square(m, n) && rows <= n
    ensures CornerTotal(f, m, n, rows, 0) == 0
  {
    if rows > 0 {
      EmptyCorner(f, m, n, rows - 1);
    }
  }

  lemma {:induction false} RowsAreCorner(f: int -> int, m: Board, n: nat, k: nat)
    requires Square(m, n) && k <= n
    ensures LinesTotal(f, m, n, Left, k) == CornerTotal(f, m, n, k, n)
  {
    if k > 0 {
      RowsAreCorner(f, m, n, k - 1);
      assert LineOf(m, n, Left, k - 1) == m[k - 1][..n];
    }
  }

  lemma {:induction false} SumReversed(f: int -> int, s: seq<int>, t: seq<int>)
    requires |s| == |t| && forall p | 0 <= p < |s| :: t[p] == s[|s| - 1 - p]
    ensures SumOf(f, s) == SumOf(f, t)
  {
    if s != [] {
      var last := |s| - 1;
      SumReversed(f, s[1..], t[..last]);
      assert t == t[..last] + [s[0]];
      SumOfAppend(f, t[..last], s[0]);
    }
  }

  lemma LineReversed(f: int -> int, m: Board, n: nat, dir: Dir, opposite: Dir, l: nat)
    requires Square(m, n) && l < n && (dir, opposite) in {(Left, Right), (Up, Down)}
    ensures RowTotal(f, LineOf(m, n, dir, l)) == RowTotal(f, LineOf(m, n, opposite, l))
  {
    SumReversed(f, Values(LineOf(m, n, dir, l)), Values(LineOf(m, n, opposite, l)));
  }

  lemma {:induction false} ReversedLinesTotal(f: int -> int, m: Board, n: nat, dir: Dir, opposite: Dir, k: nat)
    requires Square(m, n) && k <= n
    requires (dir, opposite) in {(Left, Right), (Up, Down)}
    ensures LinesTotal(f, m, n, dir, k) == LinesTotal(f, m, n, opposite, k)
  {
    if k > 0 {
      ReversedLinesTotal(f, m, n, dir, opposite, k - 1);
      LineReversed(f, m, n, dir, opposite, k - 1);
    }
  }

  /** The total over a board does not depend on the direction its lines are read in. */
  lemma TotalAnyDirection(f: int -> int, m: Board, n: nat, dir: Dir)
    requires Square(m, n)
    ensures LinesTotal(f, m, n, dir, n) == Total(f, m, n)
  {
    RowsAreCorner(f, m, n, n);
    ColumnsAreCorner(f, m, n, n);
    ReversedLinesTotal(f, m, n, Left, Right, n);
    ReversedLinesTotal(f, m, n, Up, Down, n);
  }

  // ---- What a move does to a board ----

  /** Every tile is a power of two, two or more. */
  ghost predicate PowerTiles(m: Board, n: nat)
    requires Square(m, n)
  {
    forall r, c | 0 <= r < n && 0 <= c < n && m[r][c].Tile? :: PowerOfTwo(m[r][c].value)
  }

  ghost predicate SameValues(m: Board, m': Board, n: nat)
    requires Square(m, n) && Square(m', n)
  {
    forall r, c | 0 <= r < n && 0 <= c < n :: ValueOf(m'[r][c]) == ValueOf(m[r][c])
  }

  /** Each line, read from the target edge, is compressed, merged once and padded. */
  ghost predicate SlidBoard(m: Board, m': Board, n: nat, dir: Dir)
    requires Square(m, n) && Square(m', n)
  {
    forall l | 0 <= l < n :: Values(LineOf(m', n, dir, l)) == Slid(Values(LineOf(m, n, dir, l)))
  }

  /** What each line of a board merges. */
  ghost function GainAt(m: Board, n: nat, dir: Dir): int -> int
    requires Square(m, n)
  {
    (l: int) => if 0 <= l < n then Merged(Compress(Values(LineOf(m, n, dir, l)))) else 0
  }

  /** What all lines of a board merge. */
  ghost function GainOf(m: Board, n: nat, dir: Dir): int
    requires Square(m, n)
  {
    SumTo(GainAt(m, n, dir), n)
  }

  lemma LinePowers(m: Board, n: nat, dir: Dir, l: nat)
    requires Square(m, n) && PowerTiles(m, n) && l < n
    ensures AllPowers(Values(LineOf(m, n, dir, l)))
  {
  }

  lemma LineTotals(m: Board, m': Board, n: nat, dir: Dir, l: nat)
    requires Square(m, n) && Square(m', n) && PowerTiles(m, n) && SlidBoard(m, m', n, dir) && l < n
    ensures RowTotal(Identity, LineOf(m', n, dir, l)) == RowTotal(Identity, LineOf(m, n, dir, l))
    ensures RowTotal(Potential, LineOf(m', n, dir, l))
            == RowTotal(Potential, LineOf(m, n, dir, l)) + Merged(Compress(Values(LineOf(m, n, dir, l))))
  {
    LinePowers(m, n, dir, l);
    SlidKeeps(Values(LineOf(m, n, dir, l)));
  }

  /** Totals follow from what happens to each line. */
  lemma {:induction false} TotalsByLine(f: int -> int, m: Board, m': Board, n: nat, dir: Dir, gains: int -> int, k: nat)
    requires Square(m, n) && Square(m', n) && k <= n
    requires forall l | 0 <= l < n :: RowTotal(f, LineOf(m', n, dir, l)) == RowTotal(f, LineOf(m, n, dir, l)) + gains(l)
    ensures LinesTotal(f, m', n, dir, k) == LinesTotal(f, m, n, dir, k) + SumTo(gains, k)
  {
    if k > 0 {
      TotalsByLine(f, m, m', n, dir, gains, k - 1);
    }
  }

  function SumTo(f: int -> int, k: nat): int {
    if k == 0 then 0 else SumTo(f, k - 1) + f(k - 1)
  }

  lemma {:induction false} SumToZero(k: nat)
    ensures SumTo(Nothing, k) == 0
  {
    if k > 0 {
      SumToZero(k - 1);
    }
  }

  function Nothing(l: int): int { 0 }

  /** Every cell of a board lies on a line of every direction. */
  lemma CellOnLine(n: nat, dir: Dir, r: nat, c: nat) returns (l: nat, p: nat)
    requires r < n && c < n
    ensures l < n && p < n && RowAt(n, dir, l, p) == r && ColAt(n, dir, l, p) == c
  {
    match dir
    case Up => l, p := c, r;
    case Down => l, p := c, n - 1 - r;
    case Left => l, p := r, c;
    case Right => l, p := r, n - 1 - c;
  }

  lemma SlidPowers(m: Board, m': Board, n: nat, dir: Dir)
    requires Square(m, n) && Square(m', n) && PowerTiles(m, n) && SlidBoard(m, m', n, dir)
    requires forall r, c | 0 <= r < n && 0 <= c < n && m'[r][c].Tile? :: m'[r][c].value != 0
    ensures PowerTiles(m', n)
  {
    forall r, c | 0 <= r < n && 0 <= c < n && m'[r][c].Tile? ensures PowerOfTwo(m'[r][c].value) {
      var l, p := CellOnLine(n, dir, r, c);
      LinePowers(m, n, dir, l);
      SlidKeeps(Values(LineOf(m, n, dir, l)));
      assert Values(LineOf(m', n, dir, l))[p] == m'[r][c].value;
    }
  }

  /** A move keeps the sum of all tiles and raises the potential by exactly what it gains. */
  lemma MoveTotals(m: Board, m': Board, n: nat, dir: Dir)
    requires Square(m, n) && Square(m', n) && PowerTiles(m, n) && SlidBoard(m, m', n, dir)
    ensures Total(Identity, m', n) == Total(Identity, m, n)
    ensures Total(Potential, m', n) == Total(Potential, m, n) + GainOf(m, n, dir)
  {
    forall l | 0 <= l < n
      ensures RowTotal(Identity, LineOf(m', n, dir, l)) == RowTotal(Identity, LineOf(m, n, dir, l)) + Nothing(l)
      ensures RowTotal(Potential, LineOf(m', n, dir, l))
              == RowTotal(Potential, LineOf(m, n, dir, l)) + GainAt(m, n, dir)(l)
    {
      LineTotals(m, m', n, dir, l);
    }
    TotalsByLine(Identity, m, m', n, dir, Nothing, n);
    TotalsByLine(Potential, m, m', n, dir, GainAt(m, n, dir), n);
    SumToZero(n);
    TotalAnyDirection(Identity, m, n, dir);
    TotalAnyDirection(Identity, m', n, dir);
    TotalAnyDirection(Potential, m, n, dir);
    TotalAnyDirection(Potential, m', n, dir);
  }

  // ---- Any moves left? ----

  /** The board would change if moved in this direction. */
  ghost predicate CanMove(m: Board, n: nat, dir: Dir)
    requires Square(m, n)
  {
    exists l | 0 <= l < n :: Slid(Values(LineOf(m, n, dir, l))) != Values(LineOf(m, n, dir, l))
  }

  /** There is an empty cell, or two equal neighbours to the right or below. */
  ghost predicate HasMoves(m: Board, n: nat)
    requires Square(m, n)
  {
    || (exists r, c | 0 <= r < n && 0 <= c < n :: m[r][c].Empty?)
    || (exists r: nat, c: nat :: EqualRight(m, n, r, c))
    || (exists r: nat, c: nat :: EqualBelow(m, n, r, c))
  }

  predicate EqualRight(m: Board, n: nat, r: nat, c: nat)
    requires Square(m, n)
  {
    r < n && c + 1 < n && m[r][c].Tile? && m[r][c + 1].Tile? && m[r][c].value == m[r][c + 1].value
  }

  predicate EqualBelow(m: Board, n: nat, r: nat, c: nat)
    requires Square(m, n)
  {
    r + 1 < n && c < n && m[r][c].Tile? && m[r + 1][c].Tile? && m[r][c].value == m[r + 1][c].value
  }

  predicate StuckAt(values: seq<int>, p: nat)
    requires p + 1 < |values|
  {
    values[p + 1] != 0 ==> values[p] != 0 && values[p] != values[p + 1]
  }

  /** A line that sliding does not change: full, then empty, with no equal neighbours. */
  predicate Stuck(values: seq<int>) {
    forall p: nat | p + 1 < |values| :: StuckAt(values, p)
  }

  lemma StuckTail(values: seq<int>)
    requires Stuck(values) && values != []
    ensures Stuck(values[1..])
  {
    forall p: nat | p + 1 < |values[1..]| ensures StuckAt(values[1..], p) {
      assert StuckAt(values, p + 1);
    }
  }

  lemma {:induction false} CompressStuck(values: seq<int>)
    requires Stuck(values)
    ensures |Compress(values)| <= |values|
    ensures Compress(values) + Zeros(|values| - |Compress(values)|) == values
  {
    if values != [] {
      StuckTail(values);
      CompressStuck(values[1..]);
      if values[0] == 0 {
        ZerosAfterZero(values);
      } else {
        assert values == [values[0]] + values[1..];
      }
    }
  }

  lemma {:induction false} ZerosAfterZero(values: seq<int>)
    requires Stuck(values) && values != [] && values[0] == 0
    ensures Compress(values) == [] && values == Zeros(|values|)
  {
    if |values| > 1 {
      assert StuckAt(values, 0);
      StuckTail(values);
      ZerosAfterZero(values[1..]);
      assert values == [0] + values[1..];
    }
  }

  predicate PairAt(tiles: seq<int>, p: nat)
    requires p + 1 < |tiles|
  {
    tiles[p] == tiles[p + 1]
  }

  predicate NoPair(tiles: seq<int>) {
    forall p: nat | p + 1 < |tiles| :: !PairAt(tiles, p)
  }

  lemma {:induction false} MergeNoPair(tiles: seq<int>)
    requires NoPair(tiles)
    ensures MergePairs(tiles) == tiles
  {
    if |tiles| >= 2 {
      assert !PairAt(tiles, 0);
      forall p: nat | p + 1 < |tiles[1..]| ensures !PairAt(tiles[1..], p) {
        assert !PairAt(tiles, p + 1);
      }
      MergeNoPair(tiles[1..]);
    }
  }

  lemma {:induction false} CompressNonZero(values: seq<int>)
    ensures forall p | 0 <= p < |Compress(values)| :: Compress(values)[p] != 0
  {
    if values != [] {
      CompressNonZero(values[1..]);
    }
  }

  lemma {:induction false} MergedNonZero(tiles: seq<int>)
    requires forall p | 0 <= p < |tiles| :: tiles[p] != 0
    ensures forall p | 0 <= p < |MergePairs(tiles)| :: MergePairs(tiles)[p] != 0
    decreases |tiles|
  {
    if |tiles| >= 2 {
      if tiles[0] == tiles[1] {
        MergedNonZero(tiles[2..]);
      } else {
        MergedNonZero(tiles[1..]);
      }
    }
  }

  lemma {:induction false} MergedSameLength(tiles: seq<int>)
    requires |MergePairs(tiles)| == |tiles|
    ensures NoPair(tiles)
    decreases |tiles|
  {
    if |tiles| >= 2 && tiles[0] != tiles[1] {
      MergedSameLength(tiles[1..]);
      forall p: nat | p + 1 < |tiles| ensures !PairAt(tiles, p) {
        if p > 0 {
          assert !PairAt(tiles[1..], p - 1);
        }
      }
    }
  }

  lemma {:induction false} CompressOfPadded(tiles: seq<int>, k: nat)
    requires forall p | 0 <= p < |tiles| :: tiles[p] != 0
    ensures Compress(tiles + Zeros(k)) == tiles
    decreases |tiles| + k
  {
    if tiles == [] {
      if k > 0 {
        assert Zeros(k)[1..] == Zeros(k - 1);
        CompressOfPadded([], k - 1);
        assert [] + Zeros(k - 1) == Zeros(k - 1) && [] + Zeros(k) == Zeros(k);
      }
    } else {
      assert (tiles + Zeros(k))[1..] == tiles[1..] + Zeros(k);
      CompressOfPadded(tiles[1..], k);
    }
  }

  lemma StuckStays(values: seq<int>)
    requires Stuck(values)
    ensures Slid(values) == values
  {
    var tiles := Compress(values);
    CompressStuck(values);
    CompressNonZero(values);
    forall p: nat | p + 1 < |tiles| ensures !PairAt(tiles, p) {
      assert StuckAt(values, p);
      assert values[p] == tiles[p] && values[p + 1] == tiles[p + 1];
    }
    MergeNoPair(tiles);
  }

  lemma StaysStuck(values: seq<int>)
    requires Slid(values) == values
    ensures Stuck(values)
  {
    var tiles := Compress(values);
    var m := MergePairs(tiles);
    CompressShorter(values);
    CompressNonZero(values);
    MergedNonZero(tiles);
    CompressOfPadded(m, |values| - |m|);
    MergedSameLength(tiles);
    forall p: nat | p + 1 < |values| ensures StuckAt(values, p) {
      if values[p + 1] != 0 {
        assert p + 1 < |m| && values[p] == m[p] && values[p + 1] == m[p + 1];
        assert !PairAt(tiles, p);
      }
    }
  }

  /** Sliding leaves a line as it is exactly when the line is stuck. */
  lemma SlidFixedPoint(values: seq<int>)
    ensures Slid(values) == values <==> Stuck(values)
  {
    if Stuck(values) {
      StuckStays(values);
    } else if Slid(values) == values {
      StaysStuck(values);
    }
  }

  lemma {:induction false} MergedNoPair(tiles: seq<int>)
    requires NoPair(tiles)
    ensures Merged(tiles) == 0
  {
    if |tiles| >= 2 {
      assert !PairAt(tiles, 0);
      forall p: nat | p + 1 < |tiles[1..]| ensures !PairAt(tiles[1..], p) {
        assert !PairAt(tiles, p + 1);
      }
      MergedNoPair(tiles[1..]);
    }
  }

  lemma StuckGain(values: seq<int>)
    requires Stuck(values)
    ensures Merged(Compress(values)) == 0
  {
    var tiles := Compress(values);
    CompressStuck(values);
    CompressNonZero(values);
    forall p: nat | p + 1 < |tiles| ensures !PairAt(tiles, p) {
      assert StuckAt(values, p);
      assert values[p] == tiles[p] && values[p + 1] == tiles[p + 1];
    }
    MergedNoPair(tiles);
  }

  /** Two neighbours on a line, nearer the edge first, that keep it from being stuck. */
  lemma LineCanMove(m: Board, n: nat, dir: Dir, l: nat, p: nat)
    requires Square(m, n) && l < n && p + 1 < n
    requires var line := Values(LineOf(m, n, dir, l)); line[p + 1] != 0 && (line[p] == 0 || line[p] == line[p + 1])
    ensures CanMove(m, n, dir)
  {
    var line := Values(LineOf(m, n, dir, l));
    SlidFixedPoint(line);
    assert !StuckAt(line, p);
  }

  ghost predicate PositiveTiles(m: Board, n: nat)
    requires Square(m, n)
  {
    forall r, c | 0 <= r < n && 0 <= c < n && m[r][c].Tile? :: 0 < m[r][c].value
  }

  /** Between a tile and an empty cell of a line lie two neighbours of which one is empty. */
  lemma {:induction false} MixedLine(values: seq<int>, a: nat, b: nat) returns (p: nat)
    requires a < |values| && b < |values| && values[a] != 0 && values[b] == 0
    ensures p + 1 < |values| && (values[p] == 0) != (values[p + 1] == 0)
    decreases if a < b then b - a else a - b
  {
    var next := if a < b then a + 1 else a - 1;
    if values[next] == 0 {
      p := if a < b then a else next;
    } else {
      p := MixedLine(values, next, b);
    }
  }

  /** A line with a tile and an empty cell can be moved towards one of its two ends. */
  lemma MixedLineCanMove(m: Board, n: nat, dir: Dir, opposite: Dir, l: nat, a: nat, b: nat)
    requires Square(m, n) && PositiveTiles(m, n) && l < n && a < n && b < n
    requires (dir, opposite) in {(Left, Right), (Up, Down)}
    requires LineOf(m, n, dir, l)[a].Tile? && LineOf(m, n, dir, l)[b].Empty?
    ensures CanMove(m, n, dir) || CanMove(m, n, opposite)
  {
    var line, back := Values(LineOf(m, n, dir, l)), Values(LineOf(m, n, opposite, l));
    var p := MixedLine(line, a, b);
    if line[p] == 0 {
      LineCanMove(m, n, dir, l, p);
    } else {
      assert back[n - 2 - p] == line[p + 1] && back[n - 1 - p] == line[p];
      LineCanMove(m, n, opposite, l, n - 2 - p);
    }
  }

  lemma StuckBoardAt(m: Board, n: nat, dir: Dir, l: nat, p: nat)
    requires Square(m, n) && PositiveTiles(m, n) && !HasMoves(m, n) && l < n && p + 1 < n
    ensures StuckAt(Values(LineOf(m, n, dir, l)), p)
  {
    var r, c := RowAt(n, dir, l, p), ColAt(n, dir, l, p);
    var r', c' := RowAt(n, dir, l, p + 1), ColAt(n, dir, l, p + 1);
    assert !m[r][c].Empty? && !m[r'][c'].Empty?;
    if dir == Left || dir == Right {
      assert !EqualRight(m, n, r, if c < c' then c else c');
    } else {
      assert !EqualBelow(m, n, if r < r' then r else r', c);
    }
  }

  lemma StuckBoard(m: Board, n: nat, dir: Dir)
    requires Square(m, n) && PositiveTiles(m, n) && !HasMoves(m, n)
    ensures !CanMove(m, n, dir)
  {
    forall l | 0 <= l < n ensures Slid(Values(LineOf(m, n, dir, l))) == Values(LineOf(m, n, dir, l)) {
      forall p: nat | p + 1 < n ensures StuckAt(Values(LineOf(m, n, dir, l)), p) {
        StuckBoardAt(m, n, dir, l, p);
      }
      SlidFixedPoint(Values(LineOf(m, n, dir, l)));
    }
  }

  lemma SomeDirectionMoves(m: Board, n: nat, r: nat, c: nat)
    requires Square(m, n) && PositiveTiles(m, n) && r < n && c < n && m[r][c].Tile? && HasMoves(m, n)
    ensures exists dir :: CanMove(m, n, dir)
  {
    if r', c' :| 0 <= r' < n && 0 <= c' < n && m[r'][c'].Empty? {
      if m[r][c'].Empty? {
        MixedLineCanMove(m, n, Left, Right, r, c, c');
      } else {
        MixedLineCanMove(m, n, Up, Down, c', r, r');
      }
    } else if a: nat, b: nat :| EqualRight(m, n, a, b) {
      LineCanMove(m, n, Left, a, b);
    } else {
      var a: nat, b: nat :| EqualBelow(m, n, a, b);
      LineCanMove(m, n, Up, b, a);
    }
  }

  /** On every board with at least one tile: some move is left exactly when one of the four
      directions would change the board. */
  lemma HasMovesIsExact(m: Board, n: nat, r: nat, c: nat)
    requires Square(m, n) && PositiveTiles(m, n) && r < n && c < n && m[r][c].Tile?
    ensures HasMoves(m, n) <==> exists dir :: CanMove(m, n, dir)
  {
    if HasMoves(m, n) {
      SomeDirectionMoves(m, n, r, c);
    } else {
      forall dir ensures !CanMove(m, n, dir) {
        StuckBoard(m, n, dir);
      }
    }
  }

  /** Without a tile the answer is yes although no direction changes anything. */
  lemma EmptyBoardHasNoMove(m: Board, n: nat)
    requires Square(m, n) && 0 < n && forall r, c | 0 <= r < n && 0 <= c < n :: m[r][c].Empty?
    ensures HasMoves(m, n) && forall dir :: !CanMove(m, n, dir)
  {
    assert m[0][0].Empty?;
    forall dir ensures !CanMove(m, n, dir) {
      forall l | 0 <= l < n ensures Slid(Values(LineOf(m, n, dir, l))) == Values(LineOf(m, n, dir, l)) {
        SlidFixedPoint(Values(LineOf(m, n, dir, l)));
      }
    }
  }
}
