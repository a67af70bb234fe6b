/** Small helpers shared by every part of the model. */
module Common {

  datatype Option<+T> = None | Some(value: T)

  datatype Result<+T, +E> = Ok(value: T) | Err(error: E)

  function Min(a: int, b: int): (m: int)
    ensures m <= a && m <= b && (m == a || m == b)
  {
    if a <= b then a else b
  }

  function Max(a: int, b: int): (m: int)
    ensures a <= m && b <= m && (m == a || m == b)
  {
    if a <= b then b else a
  }

  /** The sum of f over a sequence. */
  function SumOf<T>(f: T -> int, s: seq<T>): int {
    if s == [] then 0 else f(s[0]) + SumOf(f, s[1..])
  }

  lemma {:induction false} SumOfConcat<T>(f: T -> int, s: seq<T>, t: seq<T>)
    ensures SumOf(f, s + t) == SumOf(f, s) + SumOf(f, t)
  {
    if s == [] {
      assert s + t == t;
    } else {
      SumOfConcat(f, s[1..], t);
      assert (s + t)[1..] == s[1..] + t;
    }
  }

  lemma {:induction false} SumOfAppend<T>(f: T -> int, s: seq<T>, x: T)
    ensures SumOf(f, s + [x]) == SumOf(f, s) + f(x)
  {
    SumOfConcat(f, s, [x]);
  }

  lemma {:induction false} SumOfUpdate<T>(f: T -> int, s: seq<T>, k: nat, x: T)
    requires k < |s|
    ensures SumOf(f, s[k := x]) == SumOf(f, s) - f(s[k]) + f(x)
  {
    if k > 0 {
      SumOfUpdate(f, s[1..], k - 1, x);
      assert s[k := x][1..] == s[1..][k - 1 := x];
    } else {
      assert s[k := x][1..] == s[1..];
    }
  }

  lemma {:induction false} SumOfNonNegative<T>(f: T -> int, s: seq<T>)
    requires forall x | x in s :: 0 <= f(x)
    ensures 0 <= SumOf(f, s)
    ensures forall x | x in s :: f(x) <= SumOf(f, s)
  {
    if s != [] {
      SumOfNonNegative(f, s[1..]);
      assert forall x | x in s :: x == s[0] || x in s[1..];
    }
  }

  /** Checks made one after the other: the first ground that holds decides. */
  datatype Checks<E> = Checks(found: Option<E>) {
    function Then(ground: bool, error: E): Checks<E> {
      if found.None? && ground then Checks(Some(error)) else this
    }
  }

  // ---- Calls in time ----

  /** A call made at a moment. */
  datatype Timed<+Op> = At(now: int, op: Op)

  /** The calls come no earlier than a moment and the clock never runs back. */
  ghost predicate InOrder<Op>(start: int, calls: seq<Timed<Op>>)
    decreases |calls|
  {
    calls != [] ==> start <= calls[0].now && InOrder(calls[0].now, calls[1..])
  }

  /** The moment a run has reached. */
  function EndTime<Op>(start: int, calls: seq<Timed<Op>>): int
    decreases |calls|
  {
    if calls == [] then start else EndTime(calls[0].now, calls[1..])
  }
}
