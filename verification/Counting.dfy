/** Finite counts and sums, and the exchange of their order (double counting). */
module Counting {

  /** How many i below n satisfy f. */
  function Count(n: nat, f: nat -> bool): nat {
    if n == 0 then 0 else Count(n - 1, f) + (if f(n - 1) then 1 else 0)
  }

  function Sum(n: nat, f: nat -> int): int {
    if n == 0 then 0 else Sum(n - 1, f) + f(n - 1)
  }

  lemma {:induction false} CountSame(n: nat, f: nat -> bool, g: nat -> bool)
    requires forall i: nat :: i < n ==> f(i) == g(i)
    ensures Count(n, f) == Count(n, g)
  {
    if n > 0 {
      CountSame(n - 1, f, g);
    }
  }

  lemma {:induction false} SumSame(n: nat, f: nat -> int, g: nat -> int)
    requires forall i: nat :: i < n ==> f(i) == g(i)
    ensures Sum(n, f) == Sum(n, g)
  {
    if n > 0 {
      SumSame(n - 1, f, g);
    }
  }

  lemma {:induction false} CountAtMost(n: nat, f: nat -> bool)
    ensures Count(n, f) <= n
  {
    if n > 0 {
      CountAtMost(n - 1, f);
    }
  }

  lemma {:induction false} CountOpposite(n: nat, f: nat -> bool, g: nat -> bool)
    requires forall i: nat :: i < n ==> f(i) != g(i)
    ensures Count(n, f) + Count(n, g) == n
  {
    if n > 0 {
      CountOpposite(n - 1, f, g);
    }
  }

  lemma {:induction false} CountSplit(n: nat, m: nat, f: nat -> bool)
    ensures Count(n + m, f) == Count(n, f) + Count(m, (i: nat) => f(n + i))
  {
    if m > 0 {
      CountSplit(n, m - 1, f);
      CountSame(m - 1, (i: nat) => f(n + i), (i: nat) => f(n + i));
    }
  }

  lemma {:induction false} SumPlus(n: nat, f: nat -> int, g: nat -> int, h: nat -> int)
    requires forall i: nat :: i < n ==> h(i) == f(i) + g(i)
    ensures Sum(n, h) == Sum(n, f) + Sum(n, g)
  {
    if n > 0 {
      SumPlus(n - 1, f, g, h);
    }
  }

  lemma {:induction false} CountAsSum(n: nat, f: nat -> bool, g: nat -> int)
    requires forall i: nat :: i < n ==> g(i) == (if f(i) then 1 else 0)
    ensures Sum(n, g) == Count(n, f)
  {
    if n > 0 {
      CountAsSum(n - 1, f, g);
    }
  }

  lemma {:induction false} SumZero(n: nat, f: nat -> int)
    requires forall i: nat :: i < n ==> f(i) == 0
    ensures Sum(n, f) == 0
  {
    if n > 0 {
      SumZero(n - 1, f);
    }
  }

  /** A sum over three kinds of positions, each kind with its own bounds per position. */
  lemma {:induction false} SumByKind(n: nat, f: nat -> int, a: nat -> bool, b: nat -> bool, c: nat -> bool,
                                     aLow: int, bLow: int, cLow: int, aHigh: int, bHigh: int, cHigh: int)
    requires forall i: nat :: i < n ==> a(i) || b(i) || c(i)
    requires forall i: nat :: i < n ==> !(a(i) && b(i)) && !(a(i) && c(i)) && !(b(i) && c(i))
    requires forall i: nat :: i < n ==> a(i) ==> aLow <= f(i) <= aHigh
    requires forall i: nat :: i < n ==> b(i) ==> bLow <= f(i) <= bHigh
    requires forall i: nat :: i < n ==> c(i) ==> cLow <= f(i) <= cHigh
    ensures Count(n, a) + Count(n, b) + Count(n, c) == n
    ensures Count(n, a) * aLow + Count(n, b) * bLow + Count(n, c) * cLow <= Sum(n, f)
    ensures Sum(n, f) <= Count(n, a) * aHigh + Count(n, b) * bHigh + Count(n, c) * cHigh
  {
    if n > 0 {
      SumByKind(n - 1, f, a, b, c, aLow, bLow, cLow, aHigh, bHigh, cHigh);
      Step(Count(n - 1, a), aLow, aHigh);
      Step(Count(n - 1, b), bLow, bHigh);
      Step(Count(n - 1, c), cLow, cHigh);
    }
  }

  lemma Step(x: int, y: int, z: int)
    ensures (x + 1) * y == x * y + y && (x + 1) * z == x * z + z
  {
  }
}
