/** One line of a 2048 board, read from the edge the tiles slide to: sliding tiles one at a time
    with merged flags is compressing the line, merging equal pairs once, and padding. */
module Lines {
  import opened Common

  datatype Cell = Empty | Tile(value: int, merged: bool)

  function ValueOf(c: Cell): int { if c.Tile? then c.value else 0 }

  /** The values on a line, zero for an empty cell. */
  function Values(line: seq<Cell>): (r: seq<int>)
    ensures |r| == |line| && forall p | 0 <= p < |line| :: r[p] == ValueOf(line[p])
  {
    seq(|line|, p requires 0 <= p < |line| => ValueOf(line[p]))
  }

  // ---- The reference: compress, merge pairs once, pad ----

  function Compress(values: seq<int>): seq<int> {
    if values == [] then []
    else (if values[0] != 0 then [values[0]] else []) + Compress(values[1..])
  }

  /** Merge equal neighbours from the front; a merged tile does not merge again. */
  function MergePairs(tiles: seq<int>): (r: seq<int>)
    ensures |r| <= |tiles|
  {
    if |tiles| < 2 then tiles
    else if tiles[0] == tiles[1] then [2 * tiles[0]] + MergePairs(tiles[2..])
    else [tiles[0]] + MergePairs(tiles[1..])
  }

  /** The values made by merging. */
  function Merged(tiles: seq<int>): int {
    if |tiles| < 2 then 0
    else if tiles[0] == tiles[1] then 2 * tiles[0] + Merged(tiles[2..])
    else Merged(tiles[1..])
  }

  function Zeros(n: nat): (r: seq<int>)
    ensures |r| == n && forall p | 0 <= p < n :: r[p] == 0
  {
    seq(n, _ => 0)
  }

  function Slid(values: seq<int>): seq<int> {
    var m := MergePairs(Compress(values));
    if |m| <= |values| then m + Zeros(|values| - |m|) else m
  }

  lemma {:induction false} CompressShorter(values: seq<int>)
    ensures |Compress(values)| <= |values|
  {
    if values != [] {
      CompressShorter(values[1..]);
    }
  }

  // ---- The game's way: slide each tile as far as it goes ----

  /** Where a tile at position q ends up when it slides to the front, and whether it merges. */
  function Farthest(line: seq<Cell>, tile: Cell, q: nat): (r: (nat, bool))
    requires q <= |line|
    ensures r.0 <= q && (r.1 ==> r.0 < q)
  {
    if q == 0 then (0, false)
    else match line[q - 1]
      case Empty => Farthest(line, tile, q - 1)
      case Tile(value, merged) =>
        if value == ValueOf(tile) && !merged && tile.Tile? && !tile.merged then (q - 1, true) else (q, false)
  }

  datatype LineState = LineState(cells: seq<Cell>, moved: bool, gained: int)

  function SlideAt(s: LineState, p: nat): (r: LineState)
    requires p < |s.cells|
    ensures |r.cells| == |s.cells|
  {
    var cell := s.cells[p];
    if cell.Empty? then s
    else
      var (q, merge) := Farthest(s.cells, cell, p);
      if q == p then s
      else if merge then
        LineState(s.cells[p := Empty][q := Tile(cell.value * 2, true)], true, s.gained + cell.value * 2)
      else LineState(s.cells[p := Empty][q := cell], true, s.gained)
  }

  /** The line after its first k positions have been visited. */
  function Slide(line: seq<Cell>, k: nat): (r: LineState)
    requires k <= |line|
    ensures |r.cells| == |line|
  {
    if k == 0 then LineState(line, false, 0) else SlideAt(Slide(line, k - 1), k - 1)
  }

  /** No tile is marked as merged, as at the start of a move. */
  predicate Unmarked(line: seq<Cell>) {
    forall p | 0 <= p < |line| :: line[p].Tile? ==> !line[p].merged
  }

  /** Values are positive, so that zero stands for an empty cell only. */
  predicate Positive(line: seq<Cell>) {
    forall p | 0 <= p < |line| :: line[p].Tile? ==> 0 < line[p].value
  }

  // ---- The shape of a line under way ----

  /** The tiles that have arrived, front first. */
  function Push(out: seq<Cell>, value: int): seq<Cell> {
    var last := |out| - 1;
    if out != [] && out[last] == Tile(value, false) then out[last := Tile(value * 2, true)]
    else out + [Tile(value, false)]
  }

  function Arrived(line: seq<Cell>, k: nat): (out: seq<Cell>)
    requires k <= |line|
    ensures |out| <= k && forall p | 0 <= p < |out| :: out[p].Tile?
  {
    if k == 0 then []
    else if line[k - 1].Empty? then Arrived(line, k - 1)
    else Push(Arrived(line, k - 1), line[k - 1].value)
  }

  function Gaps(n: nat): (r: seq<Cell>)
    ensures |r| == n && forall p | 0 <= p < n :: r[p] == Empty
  {
    seq(n, _ => Empty)
  }

  function UnderWay(line: seq<Cell>, k: nat): (r: seq<Cell>)
    requires k <= |line|
    ensures |r| == |line|
  {
    Arrived(line, k) + Gaps(k - |Arrived(line, k)|) + line[k..]
  }

  lemma {:induction false} FarthestUnderWay(line: seq<Cell>, k: nat, q: nat)
    requires k < |line| && line[k].Tile? && !line[k].merged && |Arrived(line, k)| <= q <= k
    ensures var out := Arrived(line, k);
            Farthest(UnderWay(line, k), line[k], q)
            == if out != [] && out[|out| - 1] == Tile(line[k].value, false) then (|out| - 1, true) else (|out|, false)
  {
    var out := Arrived(line, k);
    var cells := UnderWay(line, k);
    if q > |out| {
      assert cells[q - 1] == Empty;
      FarthestUnderWay(line, k, q - 1);
    } else if q > 0 {
      assert cells[q - 1] == out[q - 1];
    }
  }

  /** The tile merges into the last one that has arrived. */
  predicate Merges(line: seq<Cell>, k: nat)
    requires k < |line|
  {
    var out := Arrived(line, k);
    line[k].Tile? && out != [] && out[|out| - 1] == Tile(line[k].value, false)
  }

  lemma SlideAtGap(line: seq<Cell>, k: nat)
    requires k < |line| && line[k].Empty?
    ensures UnderWay(line, k)[k].Empty? && UnderWay(line, k + 1) == UnderWay(line, k)
  {
  }

  lemma SlideAtMerge(line: seq<Cell>, k: nat)
    requires k < |line| && Merges(line, k)
    ensures var last := |Arrived(line, k)| - 1;
            UnderWay(line, k)[k := Empty][last := Tile(line[k].value * 2, true)] == UnderWay(line, k + 1)
  {
  }

  lemma SlideAtPlace(line: seq<Cell>, k: nat)
    requires k < |line| && line[k].Tile? && !line[k].merged && !Merges(line, k)
    ensures var place := |Arrived(line, k)|;
            && UnderWay(line, k)[k := Empty][place := line[k]] == UnderWay(line, k + 1)
            && (place == k ==> UnderWay(line, k) == UnderWay(line, k + 1))
  {
  }

  /** One visit turns the shape before it into the shape after it. */
  lemma SlideAtShape(line: seq<Cell>, k: nat, s: LineState)
    requires k < |line| && Unmarked(line) && s.cells == UnderWay(line, k)
    ensures SlideAt(s, k).cells == UnderWay(line, k + 1)
    ensures SlideAt(s, k).gained == s.gained + if Merges(line, k) then line[k].value * 2 else 0
    ensures SlideAt(s, k).moved == (s.moved || (line[k].Tile? && |Arrived(line, k + 1)| <= k))
  {
    assert s.cells[k] == line[k];
    if line[k].Empty? {
      SlideAtGap(line, k);
    } else {
      FarthestUnderWay(line, k, k);
      if Merges(line, k) {
        SlideAtMerge(line, k);
      } else {
        SlideAtPlace(line, k);
      }
    }
  }

  lemma {:induction false} SlideShape(line: seq<Cell>, k: nat)
    requires k <= |line| && Unmarked(line)
    ensures Slide(line, k).cells == UnderWay(line, k)
  {
    if k > 0 {
      SlideShape(line, k - 1);
      SlideAtShape(line, k - 1, Slide(line, k - 1));
    }
  }

  lemma SlideStep(line: seq<Cell>, k: nat)
    requires k < |line| && Unmarked(line)
    ensures Slide(line, k + 1).gained == Slide(line, k).gained + if Merges(line, k) then line[k].value * 2 else 0
    ensures Slide(line, k + 1).moved == (Slide(line, k).moved || (line[k].Tile? && |Arrived(line, k + 1)| <= k))
  {
    SlideShape(line, k);
    SlideAtShape(line, k, Slide(line, k));
  }

  // ---- Arrived tiles are merged pairs ----

  function TileValues(line: seq<Cell>): seq<int> {
    Compress(Values(line))
  }

  /** What has arrived, with the tiles still to come, gives the pairs of the whole line; and the
      values merged so far, with those still to come, give what the whole line merges. */
  ghost predicate Pairs(out: seq<Cell>, rest: seq<int>, all: seq<int>, gained: int) {
    if out == [] || !out[|out| - 1].Tile? || out[|out| - 1].merged then
      Values(out) + MergePairs(rest) == MergePairs(all) && gained + Merged(rest) == Merged(all)
    else
      var last := |out| - 1;
      && Values(out[..last]) + MergePairs([out[last].value] + rest) == MergePairs(all)
      && gained + Merged([out[last].value] + rest) == Merged(all)
  }

  lemma MergeFirstTwo(a: int, b: int, rest: seq<int>)
    ensures MergePairs([a] + ([b] + rest)) == if a == b then [2 * a] + MergePairs(rest)
            else [a] + MergePairs([b] + rest)
    ensures Merged([a] + ([b] + rest)) == if a == b then 2 * a + Merged(rest) else Merged([b] + rest)
  {
    var tiles := [a] + ([b] + rest);
    assert tiles[2..] == rest && tiles[1..] == [b] + rest;
  }

  lemma PairsOpened(out: seq<Cell>, v: int, rest: seq<int>, all: seq<int>, gained: int)
    requires out != [] && out[|out| - 1].Tile? && !out[|out| - 1].merged && out[|out| - 1].value != v
    requires Pairs(out, [v] + rest, all, gained)
    ensures Values(out) + MergePairs([v] + rest) == MergePairs(all) && gained + Merged([v] + rest) == Merged(all)
  {
    var last := |out| - 1;
    MergeFirstTwo(out[last].value, v, rest);
    assert Values(out) == Values(out[..last]) + [out[last].value];
  }

  /** The next tile arrives on its own. */
  lemma PairsPlaced(out: seq<Cell>, v: int, rest: seq<int>, all: seq<int>, gained: int)
    requires forall p | 0 <= p < |out| :: out[p].Tile?
    requires Pairs(out, [v] + rest, all, gained) && !(out != [] && out[|out| - 1] == Tile(v, false))
    ensures Pairs(out + [Tile(v, false)], rest, all, gained)
  {
    assert (out + [Tile(v, false)])[..|out|] == out;
    if out != [] && !out[|out| - 1].merged {
      PairsOpened(out, v, rest, all, gained);
    }
  }

  /** The next tile merges into the last one that arrived. */
  lemma PairsMerged(out: seq<Cell>, v: int, rest: seq<int>, all: seq<int>, gained: int)
    requires out != [] && out[|out| - 1] == Tile(v, false)
    requires Pairs(out, [v] + rest, all, gained)
    ensures Pairs(out[|out| - 1 := Tile(v * 2, true)], rest, all, gained + v * 2)
  {
    var last := |out| - 1;
    MergeFirstTwo(v, v, rest);
    assert Values(out[last := Tile(v * 2, true)]) == Values(out[..last]) + [2 * v];
  }

  /** The next tile arrives. */
  lemma PairsStep(out: seq<Cell>, v: int, rest: seq<int>, all: seq<int>, gained: int)
    requires forall p | 0 <= p < |out| :: out[p].Tile?
    requires Pairs(out, [v] + rest, all, gained)
    ensures Pairs(Push(out, v), rest, all,
                  gained + if out != [] && out[|out| - 1] == Tile(v, false) then v * 2 else 0)
  {
    if out != [] && out[|out| - 1] == Tile(v, false) {
      PairsMerged(out, v, rest, all, gained);
    } else {
      PairsPlaced(out, v, rest, all, gained);
    }
  }

  lemma NextTile(line: seq<Cell>, k: nat)
    requires k < |line| && Positive(line)
    ensures TileValues(line[k..])
            == (if line[k].Tile? then [line[k].value] else []) + TileValues(line[k + 1..])
  {
    assert Values(line[k..])[1..] == Values(line[k + 1..]);
    assert line[k..][0] == line[k];
  }

  /** After k visits, what has arrived and what is to come make up the merged pairs of the line. */
  ghost predicate PairsAt(line: seq<Cell>, k: nat)
    requires k <= |line|
  {
    Pairs(Arrived(line, k), TileValues(line[k..]), TileValues(line), Slide(line, k).gained)
  }

  lemma PairsAtStart(line: seq<Cell>)
    ensures PairsAt(line, 0)
  {
    assert line[0..] == line;
  }

  lemma PairsAtStep(line: seq<Cell>, k: nat)
    requires k < |line| && Unmarked(line) && Positive(line) && PairsAt(line, k)
    ensures PairsAt(line, k + 1)
  {
    SlideStep(line, k);
    NextTile(line, k);
    if line[k].Tile? {
      PairsStep(Arrived(line, k), line[k].value, TileValues(line[k + 1..]), TileValues(line), Slide(line, k).gained);
    } else {
      assert TileValues(line[k..]) == TileValues(line[k + 1..]);
    }
  }

  lemma {:induction false} SlidePairs(line: seq<Cell>, k: nat)
    requires k <= |line| && Unmarked(line) && Positive(line)
    ensures PairsAt(line, k)
  {
    if k == 0 {
      PairsAtStart(line);
    } else {
      SlidePairs(line, k - 1);
      PairsAtStep(line, k - 1);
    }
  }

  // ---- Main results on a line ----

  /** Once nothing is to come, what has arrived is the merged pairs. */
  lemma PairsDone(out: seq<Cell>, all: seq<int>, gained: int)
    requires forall p | 0 <= p < |out| :: out[p].Tile?
    requires Pairs(out, [], all, gained)
    ensures Values(out) == MergePairs(all) && gained == Merged(all)
  {
    if out != [] && !out[|out| - 1].merged {
      assert Values(out) == Values(out[..|out| - 1]) + [out[|out| - 1].value];
    }
  }

  lemma AllArrived(line: seq<Cell>)
    requires Unmarked(line) && Positive(line)
    ensures Values(Arrived(line, |line|)) == MergePairs(TileValues(line))
    ensures Slide(line, |line|).gained == Merged(TileValues(line))
  {
    SlidePairs(line, |line|);
    assert TileValues(line[|line|..]) == [];
    PairsDone(Arrived(line, |line|), TileValues(line), Slide(line, |line|).gained);
  }

  lemma ArrivedAndGaps(line: seq<Cell>, out: seq<Cell>, padded: seq<int>)
    requires Unmarked(line) && out == Arrived(line, |line|) && padded == Values(Slide(line, |line|).cells)
    ensures |out| <= |line| && padded == Values(out) + Zeros(|line| - |out|)
  {
    var n := |line|;
    SlideShape(line, n);
    assert Values(UnderWay(line, n)) == Values(out) + Zeros(n - |out|);
  }

  lemma SlidFrom(values: seq<int>, merged: seq<int>, padded: seq<int>)
    requires merged == MergePairs(Compress(values)) && |merged| <= |values|
    requires padded == merged + Zeros(|values| - |merged|)
    ensures padded == Slid(values)
  {
  }

  /** Visiting every position of a line gives the compressed, merged and padded line, and gains
      the sum of the merged values. */
  lemma SlideIsSlid(line: seq<Cell>)
    requires Unmarked(line) && Positive(line)
    ensures Values(Slide(line, |line|).cells) == Slid(Values(line))
    ensures Slide(line, |line|).gained == Merged(Compress(Values(line)))
  {
    var out, padded := Arrived(line, |line|), Values(Slide(line, |line|).cells);
    AllArrived(line);
    ArrivedAndGaps(line, out, padded);
    SlidFrom(Values(line), Values(out), padded);
  }

  /** A visit moves nothing, or leaves a gap where there was a tile. */
  lemma VisitLeavesGap(line: seq<Cell>, k: nat)
    requires k < |line| && Unmarked(line)
    ensures if line[k].Tile? && |Arrived(line, k + 1)| <= k then UnderWay(line, k + 1)[k] == Empty
            else UnderWay(line, k + 1) == UnderWay(line, k)
  {
    if line[k].Empty? {
      SlideAtGap(line, k);
    } else if !Merges(line, k) {
      SlideAtPlace(line, k);
    }
  }

  lemma GapChanges(line: seq<Cell>, after: seq<Cell>, p: nat)
    requires p < |line| == |after| && Positive(line) && line[p].Tile? && after[p].Empty?
    ensures Values(after) != Values(line)
  {
    assert Values(after)[p] == 0 < Values(line)[p];
  }

  /** The tile at a position leaves it when it is visited. */
  predicate Leaves(line: seq<Cell>, k: nat)
    requires k < |line|
  {
    line[k].Tile? && |Arrived(line, k + 1)| <= k
  }

  predicate SomeLeave(line: seq<Cell>, k: nat)
    requires k <= |line|
  {
    k > 0 && (SomeLeave(line, k - 1) || Leaves(line, k - 1))
  }

  lemma {:induction false} MovedWhenSomeLeave(line: seq<Cell>, k: nat)
    requires k <= |line| && Unmarked(line)
    ensures Slide(line, k).moved <==> SomeLeave(line, k)
  {
    if k > 0 {
      MovedWhenSomeLeave(line, k - 1);
      SlideStep(line, k - 1);
    }
  }

  lemma {:induction false} ChangedWhenSomeLeave(line: seq<Cell>, k: nat, shape: seq<Cell>)
    requires k <= |line| && Unmarked(line) && Positive(line) && shape == UnderWay(line, k)
    ensures Values(shape) != Values(line) <==> SomeLeave(line, k)
  {
    if k == 0 {
      assert shape == line;
    } else {
      VisitLeavesGap(line, k - 1);
      if Leaves(line, k - 1) {
        GapChanges(line, shape, k - 1);
      } else {
        ChangedWhenSomeLeave(line, k - 1, shape);
      }
    }
  }

  /** A move is reported exactly when some value on the line changed. */
  lemma MovedMeansChanged(line: seq<Cell>, k: nat)
    requires k <= |line| && Unmarked(line) && Positive(line)
    ensures Slide(line, k).moved <==> Values(Slide(line, k).cells) != Values(line)
  {
    SlideShape(line, k);
    MovedWhenSomeLeave(line, k);
    ChangedWhenSomeLeave(line, k, Slide(line, k).cells);
  }

  // ---- Sliding keeps the sum of values, and raises the potential by the gain ----

  /** The score a tile was built with, had it grown from twos. */
  function Potential(v: int): int {
    if v <= 2 then 0 else 2 * Potential(v / 2) + v
  }

  function Pow2(k: nat): int { if k == 0 then 1 else 2 * Pow2(k - 1) }

  lemma DoubleTerm(k: int, p: int)
    ensures (k - 1) * (2 * p) == 2 * ((k - 2) * p) + 2 * p
  {
  }

  lemma {:induction false} PotentialOfPower(k: nat)
    requires 1 <= k
    ensures Potential(Pow2(k)) == (k - 1) * Pow2(k) && Pow2(k) >= 2
  {
    if k > 1 {
      PotentialOfPower(k - 1);
      DoubleTerm(k, Pow2(k - 1));
      assert Pow2(k) / 2 == Pow2(k - 1);
    } else {
      assert Pow2(1) == 2 * Pow2(0);
    }
  }

  predicate PowerOfTwo(v: int) {
    v == 2 || (v > 2 && v % 2 == 0 && PowerOfTwo(v / 2))
  }

  function Identity(v: int): int { v }

  ghost predicate AllPowers(values: seq<int>) {
    forall p | 0 <= p < |values| :: values[p] == 0 || PowerOfTwo(values[p])
  }

  lemma {:induction false} CompressSum(f: int -> int, values: seq<int>)
    requires f(0) == 0
    ensures SumOf(f, Compress(values)) == SumOf(f, values)
  {
    if values != [] {
      CompressSum(f, values[1..]);
      if values[0] == 0 {
        assert Compress(values) == Compress(values[1..]);
      } else {
        assert Compress(values)[1..] == Compress(values[1..]);
      }
    }
  }

  ghost predicate Powers(tiles: seq<int>) {
    forall p | 0 <= p < |tiles| :: PowerOfTwo(tiles[p])
  }

  lemma {:induction false} CompressPowers(values: seq<int>)
    requires AllPowers(values)
    ensures Powers(Compress(values))
  {
    if values != [] {
      CompressPowers(values[1..]);
    }
  }

  lemma DoublePotential(v: int)
    requires PowerOfTwo(v)
    ensures PowerOfTwo(2 * v) && Potential(2 * v) == 2 * Potential(v) + 2 * v
  {
    assert (2 * v) / 2 == v;
  }

  lemma {:induction false} MergePowers(tiles: seq<int>)
    requires Powers(tiles)
    ensures Powers(MergePairs(tiles))
    decreases |tiles|
  {
    if |tiles| >= 2 {
      if tiles[0] == tiles[1] {
        DoublePotential(tiles[0]);
        MergePowers(tiles[2..]);
      } else {
        MergePowers(tiles[1..]);
      }
    }
  }

  lemma {:induction false} MergeSum(tiles: seq<int>)
    requires Powers(tiles)
    ensures SumOf(Identity, MergePairs(tiles)) == SumOf(Identity, tiles)
    ensures SumOf(Potential, MergePairs(tiles)) == SumOf(Potential, tiles) + Merged(tiles)
    decreases |tiles|
  {
    if |tiles| >= 2 {
      var r := MergePairs(tiles);
      if tiles[0] == tiles[1] {
        assert tiles[1..][1..] == tiles[2..];
        DoublePotential(tiles[0]);
        MergeSum(tiles[2..]);
        assert r[1..] == MergePairs(tiles[2..]);
      } else {
        MergeSum(tiles[1..]);
        assert r[1..] == MergePairs(tiles[1..]);
      }
    }
  }

  lemma {:induction false} SumZeros(n: nat)
    ensures SumOf(Identity, Zeros(n)) == 0 && SumOf(Potential, Zeros(n)) == 0
  {
    if n > 0 {
      SumZeros(n - 1);
      assert Zeros(n)[1..] == Zeros(n - 1);
    }
  }

  lemma SlidKeeps(values: seq<int>)
    requires AllPowers(values)
    ensures |Slid(values)| == |values| && AllPowers(Slid(values))
    ensures SumOf(Identity, Slid(values)) == SumOf(Identity, values)
    ensures SumOf(Potential, Slid(values)) == SumOf(Potential, values) + Merged(Compress(values))
  {
    var m := MergePairs(Compress(values));
    CompressSum(Identity, values);
    CompressSum(Potential, values);
    CompressPowers(values);
    CompressShorter(values);
    MergeSum(Compress(values));
    MergePowers(Compress(values));
    SumZeros(|values| - |m|);
    SumOfConcat(Identity, m, Zeros(|values| - |m|));
    SumOfConcat(Potential, m, Zeros(|values| - |m|));
  }
}
