/** What a move looks like on the board: which edge the tiles go to, and which of several equal tiles
    merge. */
module GameOutcomes {
  import opened Common
  import opened Lines
  import opened Game2048
  import opened GamePlay

  /** A slid line has its tiles first and its gaps last. */
  lemma SlidHasGapsLast(values: seq<int>, p: nat, q: nat)
    requires p < q < |values| && Slid(values)[p] == 0
    ensures |Slid(values)| == |values| && Slid(values)[q] == 0
  {
    CompressShorter(values);
    CompressNonZero(values);
    MergedNonZero(Compress(values));
  }

  lemma GapsLastOnLine(m: Board, m': Board, n: nat, dir: Dir, l: nat, p: nat, q: nat)
    requires Square(m, n) && Square(m', n) && PositiveTiles(m', n) && SlidBoard(m, m', n, dir)
    requires l < n && p < q < n && LineOf(m', n, dir, l)[p].Empty?
    ensures LineOf(m', n, dir, l)[q].Empty?
  {
    assert Values(LineOf(m', n, dir, l)) == Slid(Values(LineOf(m, n, dir, l)));
    SlidHasGapsLast(Values(LineOf(m, n, dir, l)), p, q);
    assert ValueOf(LineOf(m', n, dir, l)[q]) == 0;
    assert LineOf(m', n, dir, l)[q] == m'[RowAt(n, dir, l, q)][ColAt(n, dir, l, q)];
  }

  /** After a move the tiles stand against the edge it was made towards: no gap is left of a tile after a
      move to the left, right of one after a move to the right, above one after a move up, below one
      after a move down. */
  lemma TilesStandAgainstTheEdge(m: Board, m': Board, n: nat, dir: Dir, line: nat, near: nat, far: nat)
    requires Square(m, n) && Square(m', n) && PositiveTiles(m', n) && SlidBoard(m, m', n, dir)
    requires line < n && near < far < n
    ensures match dir
            case Left => m'[line][near].Empty? ==> m'[line][far].Empty?
            case Right => m'[line][far].Empty? ==> m'[line][near].Empty?
            case Up => m'[near][line].Empty? ==> m'[far][line].Empty?
            case Down => m'[far][line].Empty? ==> m'[near][line].Empty?
  {
    var row := LineOf(m', n, dir, line);
    var p, q := if dir in {Left, Up} then near else n - 1 - far, if dir in {Left, Up} then far else n - 1 - near;
    if row[p].Empty? {
      GapsLastOnLine(m, m', n, dir, line, p, q);
    }
  }

  /** Of three equal tiles the two nearest the edge merge, four merge in two pairs, and what has just
      merged does not merge again with an equal tile behind it. */
  lemma NearestPairMerges(v: int)
    requires v != 0
    ensures Slid([v, v, v]) == [2 * v, v, 0]
    ensures Slid([v, v, v, v]) == [2 * v, 2 * v, 0, 0]
    ensures Slid([v, v, 2 * v]) == [2 * v, 2 * v, 0]
    ensures Slid([0, v, 0, v]) == [2 * v, 0, 0, 0]
  {
    CompressOf3(v, v, v);
    CompressOf3(v, v, 2 * v);
    assert Compress([v, v, v, v]) == [v, v, v, v] by {
      CompressOf3(v, v, v);
      assert [v, v, v, v][1..] == [v, v, v];
    }
    assert MergePairs([v]) == [v] && MergePairs([2 * v]) == [2 * v] && MergePairs([]) == [];
    assert [v, v, v][2..] == [v] && [v, v, 2 * v][2..] == [2 * v] && [v, v][2..] == [];
    assert MergePairs([v, v]) == [2 * v];
    assert [v, v, v, v][2..] == [v, v];
    Gappy(v);
  }

  lemma CompressOf3(a: int, b: int, c: int)
    requires a != 0 && b != 0 && c != 0
    ensures Compress([a, b, c]) == [a, b, c]
  {
    CompressCons(c, []);
    CompressCons(b, [c]);
    CompressCons(a, [b, c]);
    assert [a] + [b, c] == [a, b, c] && [b] + [c] == [b, c];
  }

  lemma Gappy(v: int)
    requires v != 0
    ensures Compress([0, v, 0, v]) == [v, v]
  {
    CompressCons(v, []);
    CompressCons(0, [v]);
    CompressCons(v, [0, v]);
    CompressCons(0, [v, 0, v]);
    assert [0] + [v, 0, v] == [0, v, 0, v] && [v] + [0, v] == [v, 0, v] && [0] + [v] == [0, v];
  }

  lemma CompressCons(v: int, rest: seq<int>)
    ensures Compress([v] + rest) == (if v == 0 then [] else [v]) + Compress(rest)
  {
    assert ([v] + rest)[1..] == rest;
  }

  /** A win is a tile of 2048 or more, and a four is spawned one time in ten. */
  lemma BoundsAre(m: Board, n: nat, kind: Random)
    requires Square(m, n)
    ensures WIN_VALUE == 2048 && (SpawnValue(kind) == 4 <==> kind >= 0.9) && SpawnValue(kind) in {2, 4}
  {
  }
}
