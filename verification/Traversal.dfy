/** How far a move of the 2048 board has come, cell by cell in edge-first order. */
module Traversal {
  import opened Common
  import opened Lines
  import opened Game2048

  // ---- Changing one cell ----

  function SetCell(m: Board, r: nat, c: nat, x: Cell): (m': Board)
    requires r < |m| && c < |m[r]|
    ensures |m'| == |m| && forall i | 0 <= i < |m| :: |m'[i]| == |m[i]|
  {
    m[r := m[r][c := x]]
  }

  /** Changing the cell at a position of a line changes that line only, at that position only. */
  lemma LinesOfSet(m: Board, n: nat, dir: Dir, l: nat, p: nat, x: Cell)
    requires Square(m, n) && l < n && p < n
    ensures var m' := SetCell(m, RowAt(n, dir, l, p), ColAt(n, dir, l, p), x);
            && Square(m', n)
            && LineOf(m', n, dir, l) == LineOf(m, n, dir, l)[p := x]
            && forall k | 0 <= k < n && k != l :: LineOf(m', n, dir, k) == LineOf(m, n, dir, k)
  {
  }

  lemma RowTotalOfSet(f: int -> int, m: Board, n: nat, r: nat, c: nat, x: Cell, l: nat)
    requires Square(m, n) && r < n && c < n && l < n
    ensures RowTotal(f, LineOf(SetCell(m, r, c, x), n, Left, l))
            == RowTotal(f, LineOf(m, n, Left, l)) + if l == r then f(ValueOf(x)) - f(ValueOf(m[r][c])) else 0
  {
    if l == r {
      assert LineOf(m, n, Left, r) == m[r];
      assert Values(LineOf(SetCell(m, r, c, x), n, Left, r)) == Values(m[r])[c := ValueOf(x)];
      SumOfUpdate(f, Values(m[r]), c, ValueOf(x));
    } else {
      assert LineOf(SetCell(m, r, c, x), n, Left, l) == LineOf(m, n, Left, l);
    }
  }

  lemma {:induction false} LinesTotalOfSet(f: int -> int, m: Board, n: nat, r: nat, c: nat, x: Cell, k: nat)
    requires Square(m, n) && r < n && c < n && k <= n
    ensures LinesTotal(f, SetCell(m, r, c, x), n, Left, k)
            == LinesTotal(f, m, n, Left, k) + if r < k then f(ValueOf(x)) - f(ValueOf(m[r][c])) else 0
  {
    if k > 0 {
      LinesTotalOfSet(f, m, n, r, c, x, k - 1);
      RowTotalOfSet(f, m, n, r, c, x, k - 1);
    }
  }

  // ---- How much of each line has been visited ----

  ghost predicate Place(n: nat, a: nat, b: nat) {
    (a < n && b <= n) || (a == n && b == 0)
  }

  /** How many positions of line l have been visited once the cells before (a, b) have. */
  ghost function Done(n: nat, dir: Dir, a: nat, b: nat, l: nat): (k: nat)
    requires Place(n, a, b) && l < n
    ensures k <= n
  {
    if dir == Up || dir == Down then (if l < b then a + 1 else a)
    else if l < a then n else if l == a then b else 0
  }

  /** The line and the position on it of the cell (a, b) of the traversal. */
  ghost function LineIndex(dir: Dir, a: nat, b: nat): nat { if dir == Up || dir == Down then b else a }

  ghost function PositionIndex(dir: Dir, a: nat, b: nat): nat { if dir == Up || dir == Down then a else b }

  /** The state of a line of board m, just before cell (a, b) is visited. */
  ghost function LineProgress(m: Board, n: nat, dir: Dir, a: nat, b: nat, l: nat): LineState
    requires Square(m, n) && Place(n, a, b) && l < n
  {
    Slide(LineOf(m, n, dir, l), Done(n, dir, a, b, l))
  }

  lemma ProgressElsewhere(m: Board, n: nat, dir: Dir, a: nat, b: nat, l: nat)
    requires Square(m, n) && a < n && b < n && l < n && l != LineIndex(dir, a, b)
    ensures LineProgress(m, n, dir, a, b + 1, l) == LineProgress(m, n, dir, a, b, l)
  {
    assert Done(n, dir, a, b + 1, l) == Done(n, dir, a, b, l);
  }

  lemma ProgressHere(m: Board, n: nat, dir: Dir, a: nat, b: nat)
    requires Square(m, n) && a < n && b < n
    ensures var l, p := LineIndex(dir, a, b), PositionIndex(dir, a, b);
            LineProgress(m, n, dir, a, b + 1, l) == SlideAt(LineProgress(m, n, dir, a, b, l), p)
  {
    var l, p := LineIndex(dir, a, b), PositionIndex(dir, a, b);
    assert Done(n, dir, a, b, l) == p && Done(n, dir, a, b + 1, l) == p + 1;
  }

  lemma ProgressNextRow(m: Board, n: nat, dir: Dir, a: nat, l: nat)
    requires Square(m, n) && a < n && l < n
    ensures LineProgress(m, n, dir, a + 1, 0, l) == LineProgress(m, n, dir, a, n, l)
  {
    assert Done(n, dir, a + 1, 0, l) == Done(n, dir, a, n, l);
  }

  ghost function States(m: Board, n: nat, dir: Dir, a: nat, b: nat): (s: seq<LineState>)
    requires Square(m, n) && Place(n, a, b)
    ensures |s| == n
  {
    seq(n, l requires 0 <= l < n => LineProgress(m, n, dir, a, b, l))
  }

  lemma StateAt(m: Board, n: nat, dir: Dir, a: nat, b: nat, l: nat)
    requires Square(m, n) && Place(n, a, b) && l < n
    ensures States(m, n, dir, a, b)[l] == LineProgress(m, n, dir, a, b, l)
  {
  }

  /** Whether any of the lines has moved, and what they have merged. */
  ghost function Tally(lines: seq<LineState>): (bool, int) {
    if lines == [] then (false, 0)
    else
      var rest := Tally(lines[1..]);
      (rest.0 || lines[0].moved, rest.1 + lines[0].gained)
  }

  lemma {:induction false} TallyStill(lines: seq<LineState>)
    requires forall l | 0 <= l < |lines| :: !lines[l].moved && lines[l].gained == 0
    ensures Tally(lines) == (false, 0)
  {
    if lines != [] {
      TallyStill(lines[1..]);
    }
  }

  lemma {:induction false} TallyUpdate(lines: seq<LineState>, at: nat, x: LineState, moved: bool, gained: int)
    requires at < |lines| && x.moved == (lines[at].moved || moved) && x.gained == lines[at].gained + gained
    ensures Tally(lines[at := x]) == (Tally(lines).0 || moved, Tally(lines).1 + gained)
  {
    if at == 0 {
      assert lines[at := x][1..] == lines[1..];
    } else {
      TallyUpdate(lines[1..], at - 1, x, moved, gained);
      assert lines[at := x][1..] == lines[1..][at - 1 := x];
    }
  }

  lemma {:induction false} TallyMoved(lines: seq<LineState>)
    ensures Tally(lines).0 <==> exists l | 0 <= l < |lines| :: lines[l].moved
  {
    if lines != [] {
      TallyMoved(lines[1..]);
      if l :| 0 <= l < |lines| && lines[l].moved {
        assert l == 0 || lines[1..][l - 1].moved;
      }
    }
  }

  /** What a visit reports does not depend on what was reported before. */
  lemma SlideAtOffset(s: LineState, p: nat)
    requires p < |s.cells|
    ensures var step := SlideAt(LineState(s.cells, false, 0), p);
            SlideAt(s, p) == LineState(step.cells, s.moved || step.moved, s.gained + step.gained)
  {
  }

  /** A visit updates the state of its own line. */
  lemma StatesVisit(m: Board, n: nat, dir: Dir, a: nat, b: nat)
    requires Square(m, n) && a < n && b < n
    ensures var at, p, s := LineIndex(dir, a, b), PositionIndex(dir, a, b), States(m, n, dir, a, b);
            States(m, n, dir, a, b + 1) == s[at := SlideAt(s[at], p)]
  {
    var at, p, s := LineIndex(dir, a, b), PositionIndex(dir, a, b), States(m, n, dir, a, b);
    var s' := States(m, n, dir, a, b + 1);
    ProgressHere(m, n, dir, a, b);
    forall l: nat | l < n ensures s'[l] == if l == at then SlideAt(s[at], p) else s[l] {
      StateAt(m, n, dir, a, b, l);
      StateAt(m, n, dir, a, b + 1, l);
      if l != at {
        ProgressElsewhere(m, n, dir, a, b, l);
      }
    }
  }

  lemma StatesNextRow(m: Board, n: nat, dir: Dir, a: nat)
    requires Square(m, n) && a < n
    ensures States(m, n, dir, a + 1, 0) == States(m, n, dir, a, n)
  {
    forall l: nat | l < n ensures States(m, n, dir, a + 1, 0)[l] == States(m, n, dir, a, n)[l] {
      StateAt(m, n, dir, a, n, l);
      StateAt(m, n, dir, a + 1, 0, l);
      ProgressNextRow(m, n, dir, a, l);
    }
  }

  // ---- The state of a move ----

  /** The lines of a board stand where the states say. */
  ghost predicate Stand(cur: Board, n: nat, dir: Dir, states: seq<LineState>) {
    && Square(cur, n) && |states| == n
    && forall l: nat | l < n :: LineOf(cur, n, dir, l) == states[l].cells
  }

  /** The lines stand where the states say, and their moves and gains are counted. */
  ghost predicate Counted(cur: Board, n: nat, dir: Dir, states: seq<LineState>, moved: bool, gained: int) {
    Stand(cur, n, dir, states) && (moved, gained) == Tally(states)
  }

  /** A move that began on board m stands at board cur, just before cell (a, b). */
  ghost predicate Progress(m: Board, cur: Board, n: nat, dir: Dir, a: nat, b: nat, moved: bool, gained: int) {
    Square(m, n) && Place(n, a, b) && Counted(cur, n, dir, States(m, n, dir, a, b), moved, gained)
  }

  lemma ProgressSquare(m: Board, cur: Board, n: nat, dir: Dir, a: nat, b: nat, moved: bool, gained: int)
    requires Progress(m, cur, n, dir, a, b, moved, gained)
    ensures Square(cur, n)
  {
  }

  lemma ProgressStart(m: Board, n: nat, dir: Dir)
    requires Square(m, n)
    ensures Progress(m, m, n, dir, 0, 0, false, 0)
  {
    var s := States(m, n, dir, 0, 0);
    forall l: nat | l < n ensures s[l] == LineState(LineOf(m, n, dir, l), false, 0) {
      StateAt(m, n, dir, 0, 0, l);
      assert Done(n, dir, 0, 0, l) == 0;
    }
    TallyStill(s);
  }

  /** What a visit of one cell does to the lines of the board. */
  ghost predicate Visited(cur: Board, cur': Board, n: nat, dir: Dir, l: nat, p: nat, step: LineState) {
    && Square(cur, n) && Square(cur', n) && l < n && p < n
    && step == SlideAt(LineState(LineOf(cur, n, dir, l), false, 0), p)
    && LineOf(cur', n, dir, l) == step.cells
    && forall k: nat | k < n && k != l :: LineOf(cur', n, dir, k) == LineOf(cur, n, dir, k)
  }

  /** One visit, whatever the states were. */
  lemma VisitStates(cur: Board, cur': Board, n: nat, dir: Dir, l: nat, p: nat, step: LineState, s: seq<LineState>,
                    s': seq<LineState>, moved: bool, gained: int, moved': bool, gained': int)
    requires Counted(cur, n, dir, s, moved, gained) && Visited(cur, cur', n, dir, l, p, step)
             && s' == s[l := SlideAt(s[l], p)]
    requires moved' == (moved || step.moved) && gained' == gained + step.gained
    ensures Counted(cur', n, dir, s', moved', gained')
  {
    SlideAtOffset(s[l], p);
    TallyUpdate(s, l, SlideAt(s[l], p), step.moved, step.gained);
  }

  lemma ProgressVisit(m: Board, cur: Board, cur': Board, n: nat, dir: Dir, a: nat, b: nat, moved: bool, gained: int,
                      step: LineState, moved': bool, gained': int)
    requires Progress(m, cur, n, dir, a, b, moved, gained) && a < n && b < n
    requires Visited(cur, cur', n, dir, LineIndex(dir, a, b), PositionIndex(dir, a, b), step)
    requires moved' == (moved || step.moved) && gained' == gained + step.gained
    ensures Progress(m, cur', n, dir, a, b + 1, moved', gained')
  {
    var s, s' := States(m, n, dir, a, b), States(m, n, dir, a, b + 1);
    StatesVisit(m, n, dir, a, b);
    VisitStates(cur, cur', n, dir, LineIndex(dir, a, b), PositionIndex(dir, a, b), step, s, s', moved, gained, moved',
                gained');
  }

  lemma ProgressRow(m: Board, cur: Board, n: nat, dir: Dir, a: nat, moved: bool, gained: int)
    requires a < n && Progress(m, cur, n, dir, a, n, moved, gained)
    ensures Progress(m, cur, n, dir, a + 1, 0, moved, gained)
  {
    StatesNextRow(m, n, dir, a);
  }

  /** Where the cell at place (a, b) of the traversal is. */
  lemma CellOfPlace(n: nat, dir: Dir, a: nat, b: nat)
    requires a < n && b < n
    ensures LineIndex(dir, a, b) < n && PositionIndex(dir, a, b) < n
    ensures RowAt(n, dir, LineIndex(dir, a, b), PositionIndex(dir, a, b)) == if dir == Down then n - 1 - a else a
    ensures ColAt(n, dir, LineIndex(dir, a, b), PositionIndex(dir, a, b)) == if dir == Right then n - 1 - b else b
  {
  }

  // ---- The end of a move ----

  ghost predicate UnmarkedBoard(m: Board, n: nat)
    requires Square(m, n)
  {
    forall r, c | 0 <= r < n && 0 <= c < n && m[r][c].Tile? :: !m[r][c].merged
  }

  lemma LineEnd(m: Board, n: nat, dir: Dir, l: nat)
    requires Square(m, n) && l < n && PositiveTiles(m, n) && UnmarkedBoard(m, n)
    ensures var line, s := LineOf(m, n, dir, l), LineProgress(m, n, dir, n, 0, l);
            && Values(s.cells) == Slid(Values(line))
            && s.gained == Merged(Compress(Values(line)))
            && (s.moved <==> Slid(Values(line)) != Values(line))
  {
    var line := LineOf(m, n, dir, l);
    assert Done(n, dir, n, 0, l) == n;
    SlideIsSlid(line);
    MovedMeansChanged(line, n);
  }

  lemma TallyCons(lines: seq<LineState>, k: nat)
    requires k < |lines|
    ensures Tally(lines[k..]).1 == lines[k].gained + Tally(lines[k + 1..]).1
  {
    assert lines[k..][1..] == lines[k + 1..];
  }

  lemma {:induction false} TallyGained(lines: seq<LineState>, gains: int -> int, k: nat)
    requires k <= |lines| && forall l | 0 <= l < |lines| :: lines[l].gained == gains(l)
    ensures SumTo(gains, |lines|) == SumTo(gains, k) + Tally(lines[k..]).1
    decreases |lines| - k
  {
    if k < |lines| {
      TallyCons(lines, k);
      TallyGained(lines, gains, k + 1);
    }
  }

  lemma SlideAtPositive(s: LineState, p: nat)
    requires p < |s.cells| && Positive(s.cells)
    ensures Positive(SlideAt(s, p).cells)
  {
    var cell := s.cells[p];
    var q := Farthest(s.cells, cell, p).0;
    assert Positive(s.cells[p := Empty]);
    if cell.Tile? {
      assert Positive(s.cells[p := Empty][q := cell]);
      assert Positive(s.cells[p := Empty][q := Tile(cell.value * 2, true)]);
    }
  }

  lemma {:induction false} SlidePositive(line: seq<Cell>, k: nat)
    requires k <= |line| && Positive(line)
    ensures Positive(Slide(line, k).cells)
  {
    if k > 0 {
      SlidePositive(line, k - 1);
      SlideAtPositive(Slide(line, k - 1), k - 1);
    }
  }

  lemma EndPositive(m: Board, cur: Board, n: nat, dir: Dir, r: nat, c: nat)
    requires Square(m, n) && PositiveTiles(m, n) && Stand(cur, n, dir, States(m, n, dir, n, 0))
    requires r < n && c < n && cur[r][c].Tile?
    ensures 0 < cur[r][c].value
  {
    var l, p := CellOnLine(n, dir, r, c);
    StateAt(m, n, dir, n, 0, l);
    SlidePositive(LineOf(m, n, dir, l), Done(n, dir, n, 0, l));
    assert LineOf(cur, n, dir, l)[p] == cur[r][c];
  }

  /** At the end of a traversal every line is compressed, merged once and padded, the move flag
      says whether the direction changes anything, and the gain is what the lines merged. */
  lemma ProgressEnd(m: Board, cur: Board, n: nat, dir: Dir, moved: bool, gained: int)
    requires Progress(m, cur, n, dir, n, 0, moved, gained) && PositiveTiles(m, n) && UnmarkedBoard(m, n)
    ensures PositiveTiles(cur, n) && SlidBoard(m, cur, n, dir) && gained == GainOf(m, n, dir)
    ensures moved <==> CanMove(m, n, dir)
  {
    var s := States(m, n, dir, n, 0);
    forall l: nat | l < n
      ensures Values(s[l].cells) == Slid(Values(LineOf(m, n, dir, l)))
      ensures s[l].gained == GainAt(m, n, dir)(l)
      ensures s[l].moved <==> Slid(Values(LineOf(m, n, dir, l))) != Values(LineOf(m, n, dir, l))
    {
      LineEnd(m, n, dir, l);
      StateAt(m, n, dir, n, 0, l);
    }
    forall r, c | 0 <= r < n && 0 <= c < n && cur[r][c].Tile? ensures 0 < cur[r][c].value {
      EndPositive(m, cur, n, dir, r, c);
    }
    TallyMoved(s);
    TallyGained(s, GainAt(m, n, dir), 0);
    assert s[0..] == s;
  }

  lemma SameLine(m: Board, m': Board, n: nat, dir: Dir, l: nat)
    requires Square(m, n) && Square(m', n) && l < n && SameValues(m, m', n)
    ensures Values(LineOf(m', n, dir, l)) == Values(LineOf(m, n, dir, l))
  {
  }

  /** A direction that moves something is one that changes the value of some cell. */
  lemma MovingIsChanging(m: Board, m': Board, n: nat, dir: Dir)
    requires Square(m, n) && Square(m', n) && SlidBoard(m, m', n, dir)
    ensures CanMove(m, n, dir) <==> !SameValues(m, m', n)
  {
    if SameValues(m, m', n) {
      forall l | 0 <= l < n ensures Slid(Values(LineOf(m, n, dir, l))) == Values(LineOf(m, n, dir, l)) {
        SameLine(m, m', n, dir, l);
      }
    } else {
      var r: nat, c: nat :| r < n && c < n && ValueOf(m'[r][c]) != ValueOf(m[r][c]);
      var l, p := CellOnLine(n, dir, r, c);
      assert Values(LineOf(m', n, dir, l))[p] != Values(LineOf(m, n, dir, l))[p];
    }
  }

  // ---- Boards with the same values behave alike ----

  lemma {:induction false} SameLinesTotal(f: int -> int, m: Board, m': Board, n: nat, dir: Dir, k: nat)
    requires Square(m, n) && Square(m', n) && SameValues(m, m', n) && k <= n
    ensures LinesTotal(f, m', n, dir, k) == LinesTotal(f, m, n, dir, k)
    decreases k
  {
    if k > 0 {
      SameLinesTotal(f, m, m', n, dir, k - 1);
      SameLine(m, m', n, dir, k - 1);
    }
  }

  lemma SameGain(m: Board, m': Board, n: nat, dir: Dir)
    requires Square(m, n) && Square(m', n) && SameValues(m, m', n)
    ensures GainOf(m', n, dir) == GainOf(m, n, dir)
  {
    forall l | 0 <= l < n ensures GainAt(m', n, dir)(l) == GainAt(m, n, dir)(l) {
      SameLine(m, m', n, dir, l);
    }
    SumOfSame(GainAt(m', n, dir), GainAt(m, n, dir), n);
  }

  lemma {:induction false} SumOfSame(f: int -> int, g: int -> int, k: nat)
    requires forall l | 0 <= l < k :: f(l) == g(l)
    ensures SumTo(f, k) == SumTo(g, k)
  {
    if k > 0 {
      SumOfSame(f, g, k - 1);
    }
  }

  lemma SameSlide(m0: Board, m: Board, cur: Board, n: nat, dir: Dir)
    requires Square(m0, n) && Square(m, n) && Square(cur, n) && SameValues(m0, m, n) && SlidBoard(m, cur, n, dir)
    ensures SlidBoard(m0, cur, n, dir)
  {
    forall l | 0 <= l < n ensures Values(LineOf(cur, n, dir, l)) == Slid(Values(LineOf(m0, n, dir, l))) {
      SameLine(m0, m, n, dir, l);
    }
  }

  /** The merged flags a move begins by clearing play no part in what it does. */
  lemma FlagsDoNotMatter(m0: Board, m: Board, cur: Board, n: nat, dir: Dir)
    requires Square(m0, n) && Square(m, n) && Square(cur, n) && SameValues(m0, m, n) && SlidBoard(m, cur, n, dir)
    ensures SlidBoard(m0, cur, n, dir)
    ensures GainOf(m0, n, dir) == GainOf(m, n, dir)
    ensures CanMove(m, n, dir) <==> CanMove(m0, n, dir)
    ensures CanMove(m0, n, dir) <==> !SameValues(m0, cur, n)
  {
    SameGain(m0, m, n, dir);
    SameSlide(m0, m, cur, n, dir);
    MovingIsChanging(m0, cur, n, dir);
    MovingIsChanging(m, cur, n, dir);
    assert SameValues(m0, cur, n) <==> SameValues(m, cur, n);
  }
}
