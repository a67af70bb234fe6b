/** The running game: the grid, the score and the locks of the 2048 page. */
module GamePlay {
  import opened Common
  import opened Lines
  import opened Game2048
  import opened Traversal

  /** What the page reacts to: a key, the timer a move leaves behind, the two buttons. The random
      numbers a spawn draws come with the event. */
  datatype Event =
    | Press(dir: Dir)
    | Timer(pick: Random, kind: Random)
    | NewGame(pick1: Random, kind1: Random, pick2: Random, kind2: Random)
    | KeepGoing

  type Random = u: real | 0.0 <= u < 1.0 witness 0.0

  lemma PickInRange(u: Random, k: nat)
    requires k > 0
    ensures 0 <= (u * k as real).Floor < k
  {
    assert u * k as real < 1.0 * k as real;
    assert 0.0 <= u * k as real;
  }

  lemma PowersMeanPositive(m: Board, n: nat)
    requires Square(m, n) && PowerTiles(m, n)
    ensures PositiveTiles(m, n)
  {
    forall r, c | 0 <= r < n && 0 <= c < n && m[r][c].Tile? ensures 0 < m[r][c].value {
      PowerIsPositive(m[r][c].value);
    }
  }

  lemma PowerIsPositive(v: int)
    requires PowerOfTwo(v)
    ensures v >= 2
  {
  }

  /** The tile values are exactly the powers 2^k with k at least one, and 2^k was built with a
      score of (k - 1) * 2^k. */
  lemma {:induction false} PowerHasExponent(v: int) returns (k: nat)
    requires PowerOfTwo(v)
    ensures 1 <= k && v == Pow2(k) && Potential(v) == (k - 1) * v
  {
    k := ExponentOf(v);
    PotentialOfPower(k);
  }

  lemma {:induction false} ExponentOf(v: int) returns (k: nat)
    requires PowerOfTwo(v)
    ensures 1 <= k && v == Pow2(k)
  {
    if v == 2 {
      k := 1;
      assert Pow2(1) == 2 * Pow2(0);
    } else {
      var half := ExponentOf(v / 2);
      k := half + 1;
    }
  }

  /** The score the tiles were built with, less the four a spawned four brings for free. */
  ghost predicate Accounted(m: Board, n: nat, score: int, fours: nat) {
    Square(m, n) && PowerTiles(m, n) && score == Total(Potential, m, n) - 4 * fours
  }

  lemma SpawnAccounted(m: Board, n: nat, score: int, fours: nat, r: nat, c: nat, v: int)
    requires Accounted(m, n, score, fours) && r < n && c < n && m[r][c].Empty? && v in {2, 4}
    ensures Accounted(SetCell(m, r, c, Tile(v, false)), n, score, fours + if v == 4 then 1 else 0)
  {
    LinesTotalOfSet(Potential, m, n, r, c, Tile(v, false), n);
    assert Potential(4) == 2 * Potential(2) + 4;
  }

  /** Clearing flags and sliding keep the account, if the score grows by what was merged. */
  lemma MoveAccounted(m0: Board, m: Board, cur: Board, n: nat, dir: Dir, score: int, fours: nat)
    requires Accounted(m0, n, score, fours)
    requires Square(m, n) && PowerTiles(m, n) && SameValues(m0, m, n)
    requires Square(cur, n) && SlidBoard(m, cur, n, dir)
    requires PositiveTiles(cur, n)
    ensures Accounted(cur, n, score + GainOf(m0, n, dir), fours)
    ensures Total(Identity, cur, n) == Total(Identity, m0, n)
  {
    MoveTotals(m, cur, n, dir);
    SameLinesTotal(Potential, m0, m, n, Left, n);
    SameLinesTotal(Identity, m0, m, n, Left, n);
    SameGain(m0, m, n, dir);
    SlidPowers(m, cur, n, dir);
  }

  /** What the slid board of a move means for the board the player saw. */
  ghost predicate Slides(m0: Board, cur: Board, n: nat, dir: Dir, moved: bool, gained: int)
    requires Square(m0, n) && Square(cur, n)
  {
    && SlidBoard(m0, cur, n, dir)
    && Total(Identity, cur, n) == Total(Identity, m0, n)
    && gained == GainOf(m0, n, dir)
    && (moved <==> !SameValues(m0, cur, n))
    && (moved <==> CanMove(m0, n, dir))
  }

  lemma MoveDone(m0: Board, m: Board, cur: Board, n: nat, dir: Dir, score: int, fours: nat, moved: bool, gained: int)
    requires Accounted(m0, n, score, fours) && Square(m, n) && SameValues(m0, m, n) && PowerTiles(m, n)
    requires Square(cur, n) && PositiveTiles(cur, n) && SlidBoard(m, cur, n, dir)
    requires gained == GainOf(m, n, dir) && (moved <==> CanMove(m, n, dir))
    ensures Slides(m0, cur, n, dir, moved, gained)
    ensures Accounted(cur, n, score + gained, fours)
    ensures !moved ==> gained == 0
  {
    FlagsDoNotMatter(m0, m, cur, n, dir);
    MoveAccounted(m0, m, cur, n, dir, score, fours);
    if !moved {
      StillGain(m, n, dir);
    }
  }

  /** A direction that changes nothing merges nothing. */
  lemma StillGain(m: Board, n: nat, dir: Dir)
    requires Square(m, n) && !CanMove(m, n, dir)
    ensures GainOf(m, n, dir) == 0
  {
    forall l | 0 <= l < n ensures GainAt(m, n, dir)(l) == 0 {
      SlidFixedPoint(Values(LineOf(m, n, dir, l)));
      StuckGain(Values(LineOf(m, n, dir, l)));
    }
    SumOfNothing(GainAt(m, n, dir), n);
  }

  lemma {:induction false} SumOfNothing(f: int -> int, k: nat)
    requires forall l | 0 <= l < k :: f(l) == 0
    ensures SumTo(f, k) == 0
  {
    if k > 0 {
      SumOfNothing(f, k - 1);
    }
  }

  lemma FlagsCleared(m0: Board, m: Board, n: nat)
    requires Square(m0, n) && Square(m, n) && SameValues(m0, m, n) && PowerTiles(m0, n)
    requires forall r, c | 0 <= r < n && 0 <= c < n :: m[r][c].Tile? == m0[r][c].Tile?
    ensures PowerTiles(m, n) && PositiveTiles(m, n)
  {
    forall r, c | 0 <= r < n && 0 <= c < n && m[r][c].Tile? ensures PowerOfTwo(m[r][c].value) {
      assert ValueOf(m[r][c]) == ValueOf(m0[r][c]);
    }
    PowersMeanPositive(m, n);
  }

  ghost predicate WinningTile(m: Board, n: nat)
    requires Square(m, n)
  {
    exists r, c :: 0 <= r < n && 0 <= c < n && m[r][c].Tile? && m[r][c].value >= 2048
  }

  /** One line visit as two cell changes. */
  lemma VisitedBySets(cur: Board, cur': Board, n: nat, dir: Dir, l: nat, p: nat, q: nat, x: Cell, step: LineState)
    requires Square(cur, n) && l < n && p < n && q < n
    requires var clear := SetCell(cur, RowAt(n, dir, l, p), ColAt(n, dir, l, p), Empty);
             cur' == SetCell(clear, RowAt(n, dir, l, q), ColAt(n, dir, l, q), x)
    requires step == SlideAt(LineState(LineOf(cur, n, dir, l), false, 0), p)
    requires step.cells == LineOf(cur, n, dir, l)[p := Empty][q := x]
    ensures Visited(cur, cur', n, dir, l, p, step)
  {
    var clear := SetCell(cur, RowAt(n, dir, l, p), ColAt(n, dir, l, p), Empty);
    LinesOfSet(cur, n, dir, l, p, Empty);
    LinesOfSet(clear, n, dir, l, q, x);
  }

  // ---- Spawning ----

  /** A two, or one time in ten a four. */
  function SpawnValue(kind: Random): int { if kind < 0.9 then 2 else 4 }

  /** The index a random number picks among k. */
  function Picked(u: Random, k: nat): (i: nat)
    requires k > 0
    ensures i < k
  {
    PickInRange(u, k);
    (u * k as real).Floor
  }

  /** Reading order: row by row, from left to right. */
  predicate Before(a: (nat, nat), b: (nat, nat)) {
    a.0 < b.0 || (a.0 == b.0 && a.1 < b.1)
  }

  /** Exactly the empty cells, in reading order. */
  ghost predicate EmptyCellsAre(m: Board, n: nat, cells: seq<(nat, nat)>)
    requires Square(m, n)
  {
    && (forall i | 0 <= i < |cells| :: cells[i].0 < n && cells[i].1 < n && m[cells[i].0][cells[i].1].Empty?)
    && (forall r: nat, c: nat | r < n && c < n && m[r][c].Empty? :: (r, c) in cells)
    && (forall i, j | 0 <= i < j < |cells| :: Before(cells[i], cells[j]))
  }

  /** The cell that the first random number picks among the empty ones, in reading order, gets a two, or
      one time in ten, by the second number, a four. */
  ghost predicate SpawnsAt(m: Board, m': Board, n: nat, pick: Random, kind: Random)
    requires Square(m, n)
  {
    exists cells :: EmptyCellsAre(m, n, cells) && SpawnsIn(cells, m, m', n, pick, kind)
  }

  ghost predicate SpawnsIn(cells: seq<(nat, nat)>, m: Board, m': Board, n: nat, pick: Random, kind: Random)
    requires Square(m, n) && EmptyCellsAre(m, n, cells)
  {
    if cells == [] then m' == m
    else
      var cell := cells[Picked(pick, |cells|)];
      m' == SetCell(m, cell.0, cell.1, Tile(if kind < 0.9 then 2 else 4, false))
  }

  /** A tile has appeared on an empty cell, if there was one, and nothing else has changed. */
  ghost predicate Spawned(m: Board, m': Board, n: nat, kind: Random)
    requires Square(m, n)
  {
    if forall r, c | 0 <= r < n && 0 <= c < n :: m[r][c].Tile? then m' == m
    else
      exists r: nat, c: nat | r < n && c < n ::
        m[r][c].Empty? && m' == SetCell(m, r, c, Tile(SpawnValue(kind), false))
  }

  lemma SpawnsMeansSpawned(m: Board, m': Board, n: nat, pick: Random, kind: Random)
    requires Square(m, n) && SpawnsAt(m, m', n, pick, kind)
    ensures Spawned(m, m', n, kind)
  {
    var cells: seq<(nat, nat)> :| EmptyCellsAre(m, n, cells) && SpawnsIn(cells, m, m', n, pick, kind);
    if cells != [] {
      var cell := cells[Picked(pick, |cells|)];
      assert m[cell.0][cell.1].Empty? && m' == SetCell(m, cell.0, cell.1, Tile(SpawnValue(kind), false));
    }
  }

  /** Exactly two tiles, with these values. */
  ghost predicate TwoTiles(m: Board, n: nat, v: int, w: int)
    requires Square(m, n)
  {
    exists r: nat, c: nat, r': nat, c': nat | r < n && c < n && r' < n && c' < n && (r, c) != (r', c') ::
      TilesAt(m, n, r, c, v, r', c', w)
  }

  ghost predicate TilesAt(m: Board, n: nat, r: nat, c: nat, v: int, r': nat, c': nat, w: int)
    requires Square(m, n) && r < n && c < n && r' < n && c' < n
  {
    && m[r][c] == Tile(v, false) && m[r'][c'] == Tile(w, false)
    && forall i, j | 0 <= i < n && 0 <= j < n && (i, j) != (r, c) && (i, j) != (r', c') :: m[i][j].Empty?
  }

  lemma TwoTilesFrom(m0: Board, m1: Board, m2: Board, n: nat, r: nat, c: nat, v: int, r': nat, c': nat, w: int)
    requires Square(m0, n) && Square(m1, n) && Square(m2, n) && r < n && c < n && r' < n && c' < n
    requires forall i, j | 0 <= i < n && 0 <= j < n :: m0[i][j].Empty?
    requires m1 == SetCell(m0, r, c, Tile(v, false)) && m1[r'][c'].Empty? && m2 == SetCell(m1, r', c', Tile(w, false))
    ensures (r, c) != (r', c') && TilesAt(m2, n, r, c, v, r', c', w)
  {
  }

  /** The first spawn on an empty board. */
  lemma OneSpawned(m0: Board, m1: Board, n: nat, kind: Random) returns (r: nat, c: nat)
    requires Square(m0, n) && 0 < n && forall i, j | 0 <= i < n && 0 <= j < n :: m0[i][j].Empty?
    requires Spawned(m0, m1, n, kind)
    ensures r < n && c < n && m1 == SetCell(m0, r, c, Tile(SpawnValue(kind), false))
  {
    assert m0[0][0].Empty?;
    r, c :| r < n && c < n && m1 == SetCell(m0, r, c, Tile(SpawnValue(kind), false));
  }

  lemma SecondSpawned(m1: Board, m2: Board, n: nat, kind: Random, i: nat, j: nat) returns (r: nat, c: nat)
    requires Square(m1, n) && i < n && j < n && m1[i][j].Empty? && Spawned(m1, m2, n, kind)
    ensures r < n && c < n && m1[r][c].Empty? && m2 == SetCell(m1, r, c, Tile(SpawnValue(kind), false))
  {
    r, c :| r < n && c < n && m1[r][c].Empty? && m2 == SetCell(m1, r, c, Tile(SpawnValue(kind), false));
  }

  /** Two spawns on an empty board with room for both. */
  lemma TwoSpawned(m0: Board, m1: Board, m2: Board, n: nat, kind1: Random, kind2: Random)
    requires Square(m0, n) && Square(m1, n) && Square(m2, n) && 2 <= n
    requires forall i, j | 0 <= i < n && 0 <= j < n :: m0[i][j].Empty?
    requires Spawned(m0, m1, n, kind1) && Spawned(m1, m2, n, kind2)
    ensures TwoTiles(m2, n, SpawnValue(kind1), SpawnValue(kind2))
  {
    var r, c := OneSpawned(m0, m1, n, kind1);
    var j := if c == 0 then 1 else 0;
    assert m1[r][j] == m0[r][j];
    var r', c' := SecondSpawned(m1, m2, n, kind2, r, j);
    TwoTilesFrom(m0, m1, m2, n, r, c, SpawnValue(kind1), r', c', SpawnValue(kind2));
  }

  lemma SameAccount(m: Board, n: nat, fours: nat, due: int, score: int)
    requires Accounted(m, n, due, fours) && score == due
    ensures Accounted(m, n, score, fours)
  {
  }

  class Game {
    const n: nat
    var grid: Board
    var score: int
    var best: int
    var won: bool
    var keepPlaying: bool
    var busy: bool
    var winShown: bool
    var overShown: bool
    /** The fours spawned since the game began. */
    ghost var fours: nat

    ghost predicate Valid()
      reads this
    {
      Accounted(grid, n, score, fours)
    }

    /** The page as it loads: an empty grid, before the first new game. */
    constructor (size: nat, saved: int)
      ensures Valid() && n == size && score == 0 && best == saved && !busy && !won && !keepPlaying && !winShown
              && !overShown
    {
      n := size;
      grid := seq(size, _ => seq(size, _ => Empty));
      score, best, fours := 0, saved, 0;
      won, keepPlaying, busy, winShown, overShown := false, false, false, false, false;
      new;
      EmptyTotal(grid, n, n);
    }

    method UpdateScore(added: int)
      modifies this`score, this`best
      ensures score == old(score) + added && best == Max(old(best), score)
    {
      score := score + added;
      if score > best {
        best := score;
      }
    }

    method EmptyGrid()
      modifies this`grid
      ensures Square(grid, n) && forall r, c | 0 <= r < n && 0 <= c < n :: grid[r][c] == Empty
    {
      grid := [];
      for r := 0 to n
        invariant |grid| == r
        invariant forall i | 0 <= i < r :: |grid[i]| == n && forall j | 0 <= j < n :: grid[i][j] == Empty
      {
        var row: seq<Cell> := [];
        for c := 0 to n
          invariant |row| == c && forall j | 0 <= j < c :: row[j] == Empty
        {
          row := row + [Empty];
        }
        grid := grid + [row];
      }
    }

    /** The empty cells, row by row. */
    method EmptyCells() returns (out: seq<(nat, nat)>)
      requires Square(grid, n)
      ensures EmptyCellsAre(grid, n, out)
    {
      out := [];
      for r := 0 to n
        invariant forall i | 0 <= i < |out| :: out[i].0 < r && out[i].1 < n && grid[out[i].0][out[i].1].Empty?
        invariant forall i: nat, j: nat | i < r && j < n && grid[i][j].Empty? :: (i, j) in out
        invariant forall i, j | 0 <= i < j < |out| :: Before(out[i], out[j])
      {
        for c := 0 to n
          invariant forall i | 0 <= i < |out| :: out[i].0 <= r && out[i].1 < n && grid[out[i].0][out[i].1].Empty?
          invariant forall i | 0 <= i < |out| && out[i].0 == r :: out[i].1 < c
          invariant forall i: nat, j: nat | i < r && j < n && grid[i][j].Empty? :: (i, j) in out
          invariant forall j: nat | j < c && grid[r][j].Empty? :: (r as nat, j) in out
          invariant forall i, j | 0 <= i < j < |out| :: Before(out[i], out[j])
        {
          if grid[r][c].Empty? {
            out := out + [(r, c)];
          }
        }
      }
    }

    /** An empty cell picked at random, if there is one. */
    method PickCell(pick: Random) returns (found: bool, r: nat, c: nat, ghost cells: seq<(nat, nat)>)
      requires Square(grid, n)
      ensures EmptyCellsAre(grid, n, cells) && found == (cells != [])
      ensures found ==> (r, c) == cells[Picked(pick, |cells|)]
    {
      var empty := EmptyCells();
      cells := empty;
      if |empty| == 0 {
        return false, 0, 0, cells;
      }
      var cell := empty[Picked(pick, |empty|)];
      return true, cell.0, cell.1, cells;
    }

    /** Put a two, or one time in ten a four, on an empty cell. */
    method Spawn(pick: Random, kind: Random)
      requires Valid()
      modifies this`grid, this`fours
      ensures Valid()
      ensures SpawnsAt(old(grid), grid, n, pick, kind)
      ensures fours == old(fours) + if grid != old(grid) && kind >= 0.9 then 1 else 0
    {
      ghost var m := grid;
      var found, r, c, cells := PickCell(pick);
      if found {
        var v := if kind < 0.9 then 2 else 4;
        SpawnAccounted(grid, n, score, fours, r, c, v);
        grid := SetCell(grid, r, c, Tile(v, false));
        fours := fours + if v == 4 then 1 else 0;
      }
      assert SpawnsIn(cells, m, grid, n, pick, kind);
    }

    method ResetFlags()
      requires Square(grid, n)
      modifies this`grid
      ensures Square(grid, n) && SameValues(old(grid), grid, n) && UnmarkedBoard(grid, n)
      ensures forall r, c | 0 <= r < n && 0 <= c < n :: grid[r][c].Tile? == old(grid)[r][c].Tile?
    {
      for r := 0 to n
        invariant Square(grid, n)
        invariant forall i, j | 0 <= i < n && 0 <= j < n ::
                    grid[i][j] == if i < r && old(grid)[i][j].Tile? then Tile(old(grid)[i][j].value, false)
                      else old(grid)[i][j]
      {
        for c := 0 to n
          invariant Square(grid, n)
          invariant forall i, j | 0 <= i < n && 0 <= j < n ::
                      grid[i][j] == if (i < r || (i == r && j < c)) && old(grid)[i][j].Tile?
                                    then Tile(old(grid)[i][j].value, false) else old(grid)[i][j]
        {
          if grid[r][c].Tile? {
            grid := SetCell(grid, r, c, Tile(grid[r][c].value, false));
          }
        }
      }
    }

    /** The next cell in a direction is the one before on its line, unless the edge is reached. */
    lemma NextCell(dir: Dir, l: nat, q: nat)
      requires l < n && q < n
      ensures var r, c := RowAt(n, dir, l, q) + DeltaRow(dir), ColAt(n, dir, l, q) + DeltaCol(dir);
              && (0 <= r < n && 0 <= c < n <==> q > 0)
              && (q > 0 ==> r == RowAt(n, dir, l, q - 1) && c == ColAt(n, dir, l, q - 1))
    {
    }

    /** Step from a cell as far as possible over empty cells, and one further onto an equal tile
        that has not merged yet. */
    method FindFarthest(dir: Dir, r: nat, c: nat, ghost l: nat, ghost p: nat)
      returns (nr: nat, nc: nat, merged: bool, ghost q: nat)
      requires Square(grid, n) && l < n && p < n && r == RowAt(n, dir, l, p) && c == ColAt(n, dir, l, p)
      requires grid[r][c].Tile?
      ensures var (end, merge) := Farthest(LineOf(grid, n, dir, l), grid[r][c], p);
              && merged == merge && nr == RowAt(n, dir, l, end) && nc == ColAt(n, dir, l, end)
              && q == end <= p
    {
      var cell := grid[r][c];
      ghost var line := LineOf(grid, n, dir, l);
      nr, nc, merged, q := r, c, false, p;
      while true
        invariant q <= p && nr == RowAt(n, dir, l, q) && nc == ColAt(n, dir, l, q)
        invariant !merged && Farthest(line, cell, p) == Farthest(line, cell, q)
        decreases q
      {
        var tr, tc := nr + DeltaRow(dir), nc + DeltaCol(dir);
        NextCell(dir, l, q);
        if tr < 0 || tr >= n || tc < 0 || tc >= n {
          break;
        }
        var target := grid[tr][tc];
        assert q > 0 && target == line[q - 1];
        if target.Empty? {
          nr, nc, q := tr, tc, q - 1;
        } else if target.value == cell.value && !target.merged && !cell.merged {
          nr, nc, q := tr, tc, q - 1;
          merged := true;
          break;
        } else {
          break;
        }
      }
    }

    /** Slide the tile at a cell as far as it goes in a direction, merging it at most once. */
    method SlideTile(dir: Dir, r: nat, c: nat, ghost l: nat, ghost p: nat)
      returns (moved: bool, gained: int, ghost step: LineState)
      requires Square(grid, n) && l < n && p < n && r == RowAt(n, dir, l, p) && c == ColAt(n, dir, l, p)
      modifies this`grid
      ensures Visited(old(grid), grid, n, dir, l, p, step) && moved == step.moved && gained == step.gained
    {
      moved, gained := false, 0;
      var cell := grid[r][c];
      step := SlideAt(LineState(LineOf(grid, n, dir, l), false, 0), p);
      assert LineOf(grid, n, dir, l)[p] == cell;
      if cell.Empty? {
        return;
      }
      var nr, nc, merged, q := FindFarthest(dir, r, c, l, p);
      if nr != r || nc != c {
        moved := true;
        ghost var was := grid;
        grid := SetCell(grid, r, c, Empty);
        if merged {
          gained := cell.value * 2;
          grid := SetCell(grid, nr, nc, Tile(gained, true));
          VisitedBySets(was, grid, n, dir, l, p, q, Tile(gained, true), step);
        } else {
          grid := SetCell(grid, nr, nc, cell);
          VisitedBySets(was, grid, n, dir, l, p, q, cell, step);
        }
      }
    }

    /** Visit the cell at place (a, b) of the traversal. */
    method VisitPlace(dir: Dir, a: nat, b: nat) returns (moved: bool, gained: int, ghost step: LineState)
      requires Square(grid, n) && a < n && b < n
      modifies this`grid
      ensures Visited(old(grid), grid, n, dir, LineIndex(dir, a, b), PositionIndex(dir, a, b), step)
      ensures moved == step.moved && gained == step.gained
    {
      var r := if dir == Down then n - 1 - a else a;
      var c := if dir == Right then n - 1 - b else b;
      CellOfPlace(n, dir, a, b);
      moved, gained, step := SlideTile(dir, r, c, LineIndex(dir, a, b), PositionIndex(dir, a, b));
    }

    method Visit(dir: Dir, a: nat, b: nat, ghost m: Board, moved0: bool, gained0: int)
      returns (moved: bool, gained: int)
      requires a < n && b < n && Progress(m, grid, n, dir, a, b, moved0, gained0)
      modifies this`grid
      ensures Progress(m, grid, n, dir, a, b + 1, moved, gained)
    {
      ghost var cur := grid;
      ProgressSquare(m, grid, n, dir, a, b, moved0, gained0);
      var movedHere, gainedHere, step := VisitPlace(dir, a, b);
      moved := moved0 || movedHere;
      gained := gained0 + gainedHere;
      ProgressVisit(m, cur, grid, n, dir, a, b, moved0, gained0, step, moved, gained);
    }

    method VisitRow(dir: Dir, a: nat, ghost m: Board, moved0: bool, gained0: int) returns (moved: bool, gained: int)
      requires a < n && Progress(m, grid, n, dir, a, 0, moved0, gained0)
      modifies this`grid
      ensures Progress(m, grid, n, dir, a + 1, 0, moved, gained)
    {
      moved, gained := moved0, gained0;
      for b := 0 to n
        invariant Progress(m, grid, n, dir, a, b, moved, gained)
      {
        moved, gained := Visit(dir, a, b, m, moved, gained);
      }
      ProgressRow(m, grid, n, dir, a, moved, gained);
    }

    /** Visit every cell, those closest to the target edge first. */
    method Traverse(dir: Dir) returns (moved: bool, gained: int)
      requires Square(grid, n)
      modifies this`grid
      ensures Progress(old(grid), grid, n, dir, n, 0, moved, gained)
    {
      ghost var m := grid;
      moved, gained := false, 0;
      ProgressStart(m, n, dir);
      for a := 0 to n
        invariant Progress(m, grid, n, dir, a, 0, moved, gained)
      {
        moved, gained := VisitRow(dir, a, m, moved, gained);
      }
    }

    method SlideAll(dir: Dir) returns (moved: bool, gained: int)
      requires Square(grid, n) && PositiveTiles(grid, n) && UnmarkedBoard(grid, n)
      modifies this`grid
      ensures Square(grid, n) && PositiveTiles(grid, n) && SlidBoard(old(grid), grid, n, dir)
      ensures gained == GainOf(old(grid), n, dir) && (moved <==> CanMove(old(grid), n, dir))
    {
      ghost var m := grid;
      moved, gained := Traverse(dir);
      ProgressEnd(m, grid, n, dir, moved, gained);
    }

    /** Clear the flags, then slide and merge the whole board. */
    method SlideBoard(dir: Dir) returns (moved: bool, gained: int)
      requires Valid()
      modifies this`grid
      ensures Accounted(grid, n, score + gained, fours) && Slides(old(grid), grid, n, dir, moved, gained)
      ensures !moved ==> gained == 0
    {
      ghost var m0 := grid;
      ResetFlags();
      ghost var m := grid;
      FlagsCleared(m0, m, n);
      moved, gained := SlideAll(dir);
      MoveDone(m0, m, grid, n, dir, score, fours, moved, gained);
    }

    /** One move: nothing while the board is busy or an overlay shows; otherwise every line is
        compressed, merged once and padded towards the edge, the score grows by what was merged,
        and the board is busy exactly when some value changed. */
    method Move(dir: Dir)
      requires Valid()
      modifies this`score, this`best, this`busy, this`grid
      ensures Valid()
      ensures old(busy || winShown || overShown) ==>
                grid == old(grid) && score == old(score) && best == old(best) && busy == old(busy)
      ensures !old(busy || winShown || overShown) ==>
                && Slides(old(grid), grid, n, dir, busy, score - old(score))
                && best == if busy then Max(old(best), score) else old(best)
    {
      if busy || winShown || overShown {
        return;
      }
      MoveTiles(dir);
    }

    method MoveTiles(dir: Dir)
      requires Valid() && !busy
      modifies this`score, this`best, this`busy, this`grid
      ensures Valid()
      ensures Slides(old(grid), grid, n, dir, busy, score - old(score))
      ensures best == if busy then Max(old(best), score) else old(best)
    {
      var moved, gained := SlideBoard(dir);
      if moved {
        busy := true;
        UpdateScore(gained);
      }
      SameAccount(grid, n, fours, old(score) + gained, score);
    }

    method FindTile(least: int) returns (yes: bool)
      requires Square(grid, n)
      ensures yes <==> exists r, c :: 0 <= r < n && 0 <= c < n && grid[r][c].Tile? && grid[r][c].value >= least
    {
      for r := 0 to n
        invariant forall i, j | 0 <= i < r && 0 <= j < n && grid[i][j].Tile? :: grid[i][j].value < least
      {
        for c := 0 to n
          invariant forall j | 0 <= j < c && grid[r][j].Tile? :: grid[r][j].value < least
        {
          if grid[r][c].Tile? && grid[r][c].value >= least {
            return true;
          }
        }
      }
      return false;
    }

    /** The win is announced once, and never after the player chose to go on. */
    method CheckWin()
      requires Square(grid, n)
      modifies this`won, this`winShown
      ensures won == (old(won) || (!keepPlaying && WinningTile(grid, n)))
      ensures winShown == (old(winShown) || (!old(won) && won))
    {
      if !won && !keepPlaying {
        var yes := FindTile(WIN_VALUE);
        if yes {
          won, winShown := true, true;
        }
      }
    }

    method AnyPair() returns (yes: bool)
      requires Square(grid, n) && forall r, c | 0 <= r < n && 0 <= c < n :: grid[r][c].Tile?
      ensures yes <==> exists r: nat, c: nat :: EqualRight(grid, n, r, c) || EqualBelow(grid, n, r, c)
    {
      for r := 0 to n
        invariant forall i: nat, j: nat | i < r :: !EqualRight(grid, n, i, j) && !EqualBelow(grid, n, i, j)
      {
        for c := 0 to n
          invariant forall j: nat | j < c :: !EqualRight(grid, n, r, j) && !EqualBelow(grid, n, r, j)
        {
          var v := grid[r][c].value;
          if c + 1 < n && grid[r][c + 1].Tile? && grid[r][c + 1].value == v {
            assert EqualRight(grid, n, r, c);
            return true;
          }
          if r + 1 < n && grid[r + 1][c].Tile? && grid[r + 1][c].value == v {
            assert EqualBelow(grid, n, r, c);
            return true;
          }
        }
      }
      return false;
    }

    /** Whether there is an empty cell, or an equal neighbour to the right or below. */
    method ScanForMoves() returns (yes: bool)
      requires Square(grid, n)
      ensures yes <==> HasMoves(grid, n)
    {
      var cells := EmptyCells();
      if |cells| > 0 {
        assert grid[cells[0].0][cells[0].1].Empty?;
        return true;
      }
      yes := AnyPair();
    }

    /** Whether a move is left; on a board with a tile, whether some direction changes it. */
    method AnyMoves() returns (yes: bool)
      requires Valid()
      ensures yes <==> HasMoves(grid, n)
      ensures (exists r, c :: 0 <= r < n && 0 <= c < n && grid[r][c].Tile?)
              ==> (yes <==> exists dir :: CanMove(grid, n, dir))
    {
      yes := ScanForMoves();
      PowersMeanPositive(grid, n);
      if r: nat, c: nat :| r < n && c < n && grid[r][c].Tile? {
        HasMovesIsExact(grid, n, r, c);
      }
    }

    /** The timer of a move fires: the lock is released, a tile appears, and the game is won or
        over. */
    method OnTimer(pick: Random, kind: Random)
      requires Valid()
      modifies this`grid, this`fours, this`busy, this`won, this`winShown, this`overShown
      ensures Valid() && !busy && SpawnsAt(old(grid), grid, n, pick, kind)
      ensures won == (old(won) || (!keepPlaying && WinningTile(grid, n)))
      ensures winShown == (old(winShown) || (!old(won) && won))
      ensures overShown == (old(overShown) || !HasMoves(grid, n))
    {
      busy := false;
      Spawn(pick, kind);
      CheckWin();
      var more := AnyMoves();
      if !more {
        overShown := true;
      }
    }

    /** A new game starts from two spawned tiles, as far as there is room, and no score; the best score
        stays. */
    method Restart(pick1: Random, kind1: Random, pick2: Random, kind2: Random)
      modifies this
      ensures Valid() && score == 0 && best == old(best)
      ensures !busy && !won && !keepPlaying && !winShown && !overShown
      ensures 2 <= n ==> TwoTiles(grid, n, SpawnValue(kind1), SpawnValue(kind2))
    {
      winShown, overShown, score, won, keepPlaying, busy := false, false, 0, false, false, false;
      fours := 0;
      EmptyGrid();
      EmptyTotal(grid, n, n);
      SpawnTwo(pick1, kind1, pick2, kind2);
    }

    method SpawnTwo(pick1: Random, kind1: Random, pick2: Random, kind2: Random)
      requires Valid() && forall r, c | 0 <= r < n && 0 <= c < n :: grid[r][c].Empty?
      modifies this`grid, this`fours
      ensures Valid()
      ensures 2 <= n ==> TwoTiles(grid, n, SpawnValue(kind1), SpawnValue(kind2))
    {
      ghost var m0 := grid;
      Spawn(pick1, kind1);
      ghost var m1 := grid;
      Spawn(pick2, kind2);
      SpawnsMeansSpawned(m0, m1, n, pick1, kind1);
      SpawnsMeansSpawned(m1, grid, n, pick2, kind2);
      if 2 <= n {
        TwoSpawned(m0, m1, grid, n, kind1, kind2);
      }
    }

    method OnKeepGoing()
      modifies this`keepPlaying, this`winShown
      ensures keepPlaying && !winShown
    {
      keepPlaying := true;
      winShown := false;
    }

    /** Over every sequence of keys, timers and buttons, in any order: the tiles are powers of
        two, and the score is what they were built with less four for each four spawned. */
    method Play(events: seq<Event>)
      requires Valid()
      modifies this
      ensures Valid()
    {
      for i := 0 to |events|
        invariant Valid()
      {
        match events[i]
        case Press(dir) => Move(dir);
        case Timer(pick, kind) => OnTimer(pick, kind);
        case NewGame(pick1, kind1, pick2, kind2) => Restart(pick1, kind1, pick2, kind2);
        case KeepGoing => OnKeepGoing();
      }
    }
  }

  lemma {:induction false} EmptyTotal(m: Board, n: nat, k: nat)
    requires Square(m, n) && k <= n && forall r, c | 0 <= r < n && 0 <= c < n :: m[r][c] == Empty
    ensures LinesTotal(Potential, m, n, Left, k) == 0
    decreases k
  {
    if k > 0 {
      EmptyTotal(m, n, k - 1);
      assert Values(LineOf(m, n, Left, k - 1)) == Zeros(n);
      SumZeros(n);
    }
  }
}
