/** Taking an amount out of a row of pots, front pot first. This is the arithmetic core of
    allocating funds over grants and of settling a reservation. */
module Draws {
  import opened Common

  function Itself(x: int): int { x }

  function Sum(s: seq<int>): int { SumOf(Itself, s) }

  ghost predicate NonNegative(s: seq<int>) {
    forall k | 0 <= k < |s| :: 0 <= s[k]
  }

  /** How much each pot gives when amount is taken front pot first. */
  function Draw(pots: seq<int>, amount: int): (d: seq<int>)
    ensures |d| == |pots|
  {
    if pots == [] then [] else
      var first := Min(pots[0], amount);
      [first] + Draw(pots[1..], amount - first)
  }

  /** What is left in the pots. */
  function Less(pots: seq<int>, d: seq<int>): (rest: seq<int>)
    requires |pots| == |d|
    ensures |rest| == |pots| && forall k | 0 <= k < |pots| :: rest[k] == pots[k] - d[k]
  {
    seq(|pots|, k requires 0 <= k < |pots| => pots[k] - d[k])
  }

  /** A draw takes nothing that is not there, and as much of the amount as there is. */
  lemma {:induction false} DrawBounds(pots: seq<int>, amount: int)
    requires NonNegative(pots) && 0 <= amount
    ensures var d := Draw(pots, amount);
            && Sum(d) == Min(amount, Sum(pots))
            && forall k | 0 <= k < |pots| :: 0 <= d[k] <= pots[k]
    ensures 0 <= Sum(pots)
  {
    if pots != [] {
      DrawBounds(pots[1..], amount - Min(pots[0], amount));
    }
  }

  /** Two rows of numbers add up to a third, pot by pot. */
  ghost predicate AddUp(a: seq<int>, b: seq<int>, c: seq<int>) {
    |a| == |b| == |c| && forall k | 0 <= k < |a| :: a[k] + b[k] == c[k]
  }

  lemma AddUpCons(x: int, a: seq<int>, y: int, b: seq<int>, z: int, c: seq<int>, xa: seq<int>, yb: seq<int>,
                  zc: seq<int>)
    requires AddUp(a, b, c) && x + y == z && xa == [x] + a && yb == [y] + b && zc == [z] + c
    ensures AddUp(xa, yb, zc)
  {
  }

  lemma DrawCons(pots: seq<int>, amount: int, rest: int)
    requires pots != [] && rest == amount - Min(pots[0], amount)
    ensures Draw(pots, amount) == [Min(pots[0], amount)] + Draw(pots[1..], rest)
  {
  }

  lemma FirstDraw(pots: seq<int>, amount: int, first: int, rest: seq<int>, d: seq<int>)
    requires pots != [] && first == Min(pots[0], amount) && rest == Draw(pots[1..], amount - first)
    requires d == Draw(pots, amount)
    ensures d == [first] + rest
  {
  }

  /** The second draw finds the pots as the first one, which took x from the front pot, left them. */
  lemma SecondDraw(pots: seq<int>, once: seq<int>, b: int, x: int, y: int, rest: seq<int>, again: seq<int>,
                   second: seq<int>)
    requires pots != [] && |once| == |pots| && |rest| == |pots| - 1 && once == [x] + rest && y == Min(pots[0] - x, b)
    requires again == Draw(Less(pots[1..], rest), b - y) && second == Draw(Less(pots, once), b)
    ensures second == [y] + again
  {
    assert Less(pots, once)[1..] == Less(pots[1..], rest);
  }

  /** What two draws take from the first pot, and what they leave to take from the others. */
  lemma FirstPotTwice(pot: int, a: int, b: int)
    requires 0 <= pot && 0 <= a && 0 <= b
    ensures var x := Min(pot, a);
            var y := Min(pot - x, b);
            && x + y == Min(pot, a + b)
            && 0 <= a - x && 0 <= b - y
            && (a - x) + (b - y) == a + b - Min(pot, a + b)
  {
  }

  /** Two draws in a row take from every pot what one draw of the total takes. */
  lemma {:induction false} DrawTwice(pots: seq<int>, a: int, b: int)
    requires NonNegative(pots) && 0 <= a && 0 <= b
    ensures AddUp(Draw(pots, a), Draw(Less(pots, Draw(pots, a)), b), Draw(pots, a + b))
  {
    if pots != [] {
      var x := Min(pots[0], a);
      var y := Min(pots[0] - x, b);
      TailNonNegative(pots);
      FirstPotTwice(pots[0], a, b);
      DrawTwice(pots[1..], a - x, b - y);
      var rest := Draw(pots[1..], a - x);
      DrawTwiceStep(pots, a, b, x, y, rest, Draw(Less(pots[1..], rest), b - y), Draw(pots[1..], a - x + (b - y)));
    }
  }

  lemma DrawTwiceStep(pots: seq<int>, a: int, b: int, x: int, y: int, rest: seq<int>, again: seq<int>, both: seq<int>)
    requires pots != [] && x == Min(pots[0], a) && y == Min(pots[0] - x, b) && x + y == Min(pots[0], a + b)
    requires rest == Draw(pots[1..], a - x) && again == Draw(Less(pots[1..], rest), b - y)
    requires both == Draw(pots[1..], a + b - (x + y)) && AddUp(rest, again, both)
    ensures AddUp(Draw(pots, a), Draw(Less(pots, Draw(pots, a)), b), Draw(pots, a + b))
  {
    var once, whole := Draw(pots, a), Draw(pots, a + b);
    var second := Draw(Less(pots, once), b);
    FirstDraw(pots, a, x, rest, once);
    FirstDraw(pots, a + b, x + y, both, whole);
    SecondDraw(pots, once, b, x, y, rest, again, second);
    AddUpCons(x, rest, y, again, x + y, both, once, second, whole);
  }

  lemma TailNonNegative(pots: seq<int>)
    requires NonNegative(pots) && pots != []
    ensures NonNegative(pots[1..]) && 0 <= pots[0]
  {
  }

  lemma FirstPotAgain(pot: int, a: int, c: int)
    requires 0 <= pot && 0 <= a && 0 <= c
    ensures var x := Min(pot, a);
            var y := Min(x, c);
            && y == Min(pot, Min(a, c)) && 0 <= a - x && 0 <= c - y
            && Min(a - x, c - y) == Min(a, c) - y
  {
  }

  lemma DrawAgain(pots: seq<int>, a: int, c: int, rest: int)
    requires pots != [] && rest == a - Min(pots[0], a)
    ensures var y := Min(Min(pots[0], a), c);
            Draw(Draw(pots, a), c) == [y] + Draw(Draw(pots[1..], rest), c - y)
  {
    assert Draw(pots, a)[1..] == Draw(pots[1..], rest);
  }

  /** Drawing again from what was drawn takes what the smaller amount alone would have taken. */
  lemma {:induction false} DrawOfDraw(pots: seq<int>, a: int, c: int)
    requires NonNegative(pots) && 0 <= a && 0 <= c
    ensures Draw(Draw(pots, a), c) == Draw(pots, Min(a, c))
  {
    if pots != [] {
      var x := Min(pots[0], a);
      var y := Min(x, c);
      TailNonNegative(pots);
      FirstPotAgain(pots[0], a, c);
      DrawOfDraw(pots[1..], a - x, c - y);
      DrawAgain(pots, a, c, a - x);
      DrawCons(pots, Min(a, c), Min(a, c) - y);
    }
  }

  /** A draw empties the front pots first: no other way of taking the same total takes more
      from any run of front pots. */
  lemma {:induction false} DrawIsFrontLoaded(pots: seq<int>, amount: int, other: seq<int>, m: nat)
    requires NonNegative(pots) && 0 <= amount
    requires |other| == |pots| && m <= |pots|
    requires forall k | 0 <= k < |pots| :: 0 <= other[k] <= pots[k]
    requires Sum(other) <= amount
    ensures Sum(other[..m]) <= Sum(Draw(pots, amount)[..m])
  {
    DrawPrefix(pots, amount, m);
    SumSplit(other, m);
    DrawBounds(other[m..], 0);
    SumMonotone(other[..m], pots[..m]);
  }

  lemma {:induction false} DrawPrefix(pots: seq<int>, amount: int, m: nat)
    requires NonNegative(pots) && 0 <= amount && m <= |pots|
    ensures Sum(Draw(pots, amount)[..m]) == Min(amount, Sum(pots[..m]))
  {
    if m > 0 {
      var d := Draw(pots, amount);
      DrawPrefix(pots[1..], amount - d[0], m - 1);
      assert d[..m][1..] == Draw(pots[1..], amount - d[0])[..m - 1];
      assert pots[..m][1..] == pots[1..][..m - 1];
      DrawBounds(pots[1..][..m - 1], 0);
    }
  }

  lemma SumSplit(s: seq<int>, m: nat)
    requires m <= |s|
    ensures Sum(s) == Sum(s[..m]) + Sum(s[m..])
  {
    SumOfConcat(Itself, s[..m], s[m..]);
    assert s[..m] + s[m..] == s;
  }

  lemma {:induction false} SumMonotone(a: seq<int>, b: seq<int>)
    requires |a| == |b|
    requires forall k | 0 <= k < |a| :: a[k] <= b[k]
    ensures Sum(a) <= Sum(b)
  {
    if a != [] {
      SumMonotone(a[1..], b[1..]);
    }
  }

  lemma {:induction false} SumAdd(a: seq<int>, b: seq<int>, c: seq<int>)
    requires |a| == |b| == |c|
    requires forall k | 0 <= k < |a| :: a[k] + b[k] == c[k]
    ensures Sum(a) + Sum(b) == Sum(c)
  {
    if a != [] {
      SumAdd(a[1..], b[1..], c[1..]);
    }
  }
}
