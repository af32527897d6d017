/** Amounts of resources. A Kubernetes quantity is an exact integer counted in its smallest unit. */
module Quantities {

  datatype Option<+T> = None | Some(value: T)

  /** The two resources that reservations lock. */
  datatype Amount = Amount(cpu: int, memory: int) {
    function Plus(other: Amount): Amount {
      Amount(cpu + other.cpu, memory + other.memory)
    }

    function Minus(other: Amount): Amount {
      Amount(cpu - other.cpu, memory - other.memory)
    }

    predicate AtMost(other: Amount) {
      cpu <= other.cpu && memory <= other.memory
    }

    predicate Positive() {
      cpu > 0 && memory > 0
    }
  }

  const ZERO := Amount(0, 0)

  /** n copies of an amount. */
  function Copies(a: Amount, n: int): Amount
    decreases if n < 0 then -n else n
  {
    if n == 0 then ZERO else if n > 0 then Copies(a, n - 1).Plus(a) else Copies(a, n + 1).Minus(a)
  }

  lemma {:induction false} CopiesSplit(a: Amount, m: int, n: int)
    ensures Copies(a, m + n) == Copies(a, m).Plus(Copies(a, n))
    decreases if n < 0 then -n else n
  {
    if n > 0 {
      CopiesStep(a, m + n - 1);
      CopiesSplit(a, m, n - 1);
    } else if n < 0 {
      CopiesStep(a, m + n);
      CopiesSplit(a, m, n + 1);
    }
  }

  lemma CopiesChange(a: Amount, m: int, b: Amount, n: int)
    requires a == b || m == 0 == n
    ensures Copies(b, n) == Copies(a, m).Plus(Copies(a, n - m))
  {
    CopiesSplit(a, m, n - m);
    assert m + (n - m) == n;
  }

  lemma NoCopies(a: Amount)
    ensures Copies(a, 0) == ZERO
  {
  }

  lemma {:induction false} CopiesOfZero(n: int)
    ensures Copies(ZERO, n) == ZERO
    decreases if n < 0 then -n else n
  {
    if n != 0 {
      CopiesOfZero(if n > 0 then n - 1 else n + 1);
    }
  }

  lemma CopiesUnit(a: Amount)
    ensures Copies(a, 1) == a && Copies(a, -1) == ZERO.Minus(a)
  {
    assert Copies(a, 0) == ZERO;
  }

  lemma {:induction false} CopiesNonNegative(a: Amount, n: nat)
    requires n == 0 || ZERO.AtMost(a)
    ensures ZERO.AtMost(Copies(a, n))
  {
    if n > 0 {
      CopiesNonNegative(a, n - 1);
    }
  }

  lemma CopiesStep(a: Amount, n: int)
    ensures Copies(a, n + 1) == Copies(a, n).Plus(a)
  {
  }

  /** A full resource vector; the GPU entry is optional. */
  datatype Quantities = Quantities(cpu: int, memory: int, gpu: Option<int>) {
    function Lockable(): Amount {
      Amount(cpu, memory)
    }
  }

  function Max(a: int, b: int): int {
    if a < b then b else a
  }

  function Min(a: int, b: int): int {
    if a < b then a else b
  }

  // ----- sums of amounts

  function SumOf<T>(xs: seq<T>, share: T -> Amount): Amount {
    if |xs| == 0 then ZERO else SumOf(xs[..|xs| - 1], share).Plus(share(xs[|xs| - 1]))
  }

  lemma {:induction false} SumUpdate<T>(xs: seq<T>, i: nat, x: T, share: T -> Amount)
    requires i < |xs|
    ensures SumOf(xs[i := x], share) == SumOf(xs, share).Plus(share(x)).Minus(share(xs[i]))
  {
    var n := |xs| - 1;
    if i < n {
      assert xs[i := x][..n] == xs[..n][i := x];
      SumUpdate(xs[..n], i, x, share);
    } else {
      assert xs[i := x][..n] == xs[..n];
    }
  }

  lemma SumAppend<T>(xs: seq<T>, x: T, share: T -> Amount)
    ensures SumOf(xs + [x], share) == SumOf(xs, share).Plus(share(x))
  {
    assert (xs + [x])[..|xs|] == xs;
  }

  lemma {:induction false} SumZero<T>(xs: seq<T>, share: T -> Amount)
    requires forall x <- xs :: share(x) == ZERO
    ensures SumOf(xs, share) == ZERO
  {
    if |xs| != 0 {
      SumZero(xs[..|xs| - 1], share);
    }
  }

  /** If everything else is zero, the sum is the one share. */
  lemma SumSingle<T>(xs: seq<T>, i: nat, x: T, share: T -> Amount)
    requires i < |xs| && SumOf(xs, share) == ZERO && share(xs[i]) == ZERO
    ensures SumOf(xs[i := x], share) == share(x)
  {
    hide SumOf;
    SumUpdate(xs, i, x, share);
    ReplaceZero(share(xs[i]), share(x));
  }

  lemma ReplaceZero(a: Amount, b: Amount)
    requires a == ZERO
    ensures ZERO.Plus(b).Minus(a) == b
  {
  }

  lemma {:induction false} SumNonNegative<T>(xs: seq<T>, share: T -> Amount)
    requires forall x <- xs :: ZERO.AtMost(share(x))
    ensures ZERO.AtMost(SumOf(xs, share))
  {
    if |xs| != 0 {
      SumNonNegative(xs[..|xs| - 1], share);
    }
  }

  lemma {:induction false} SumSplit<T>(xs: seq<T>, all: T -> Amount, some: T -> Amount, rest: T -> Amount)
    requires forall x <- xs :: all(x) == some(x).Plus(rest(x))
    ensures SumOf(xs, all) == SumOf(xs, some).Plus(SumOf(xs, rest))
  {
    if |xs| != 0 {
      SumSplit(xs[..|xs| - 1], all, some, rest);
    }
  }

  // ----- sums of integers

  function IntSum<T>(xs: seq<T>, f: T -> int): int {
    if |xs| == 0 then 0 else IntSum(xs[..|xs| - 1], f) + f(xs[|xs| - 1])
  }

  lemma IntSumAppend<T>(xs: seq<T>, x: T, f: T -> int)
    ensures IntSum(xs + [x], f) == IntSum(xs, f) + f(x)
  {
    assert (xs + [x])[..|xs|] == xs;
  }

  lemma {:induction false} IntSumRemove<T>(xs: seq<T>, i: nat, f: T -> int)
    requires i < |xs|
    ensures IntSum(xs, f) == IntSum(xs[..i] + xs[i + 1..], f) + f(xs[i])
  {
    var n := |xs| - 1;
    if i == n {
      assert xs[..i] + xs[i + 1..] == xs[..n];
    } else {
      IntSumRemove(xs[..n], i, f);
      assert xs[..i] + xs[i + 1..] == (xs[..n][..i] + xs[..n][i + 1..]) + [xs[n]];
      IntSumAppend(xs[..n][..i] + xs[..n][i + 1..], xs[n], f);
    }
  }

  /** A sum does not depend on the order. */
  lemma {:induction false} IntSumPermutation<T>(xs: seq<T>, ys: seq<T>, f: T -> int)
    requires multiset(xs) == multiset(ys)
    ensures IntSum(xs, f) == IntSum(ys, f)
    decreases |xs|
  {
    if |xs| == 0 {
      assert |multiset(ys)| == 0;
    } else {
      var n := |xs| - 1;
      var x := xs[n];
      assert x in multiset(ys);
      var i :| 0 <= i < |ys| && ys[i] == x;
      var rest := ys[..i] + ys[i + 1..];
      assert ys == ys[..i] + [x] + ys[i + 1..];
      assert xs == xs[..n] + [x];
      assert multiset(rest) == multiset(ys) - multiset{x} == multiset(xs[..n]);
      IntSumPermutation(xs[..n], rest, f);
      IntSumRemove(ys, i, f);
    }
  }
}
