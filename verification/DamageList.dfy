/** Spreads an amount of damage over rounds that hurt less and less. */
module DamageList {

  function Abs(x: int): nat {
    if x < 0 then -x else x
  }

  function Sum(list: seq<int>): int {
    if list == [] then 0 else list[0] + Sum(list[1..])
  }

  // What the damage should have come to after the rounds that hurt `i`.
  function Target(amount: nat, start: int, i: int): int
    requires 1 <= i <= start
  {
    (start + 1 - i) * amount / start
  }

  // Another round of `i` would bring the sum, relative to the target, nearer to it. Nothing is near a target of 0.
  predicate Nearer(target: int, sum: int, i: int) {
    target != 0 && Abs(target - (sum + i)) < Abs(target - sum)
  }

  // The part of a list that hurts at least `i`.
  function AtLeast(list: seq<int>, i: int): int {
    if list == [] then 0 else (if list[0] >= i then list[0] else 0) + AtLeast(list[1..], i)
  }

  ghost predicate NonIncreasing(list: seq<int>) {
    forall j, k | 0 <= j < k < |list| :: list[j] >= list[k]
  }

  // The rounds of `i` end as near to their target as any positive number of them can.
  ghost predicate Nearest(list: seq<int>, target: int, i: int) {
    forall k: nat | k >= 1 :: Abs(target - AtLeast(list, i)) <= Abs(target - (AtLeast(list, i + 1) + k * i))
  }

  // A bound on twice the sum of a list.
  predicate Bounded(amount: nat, start: int, sum: int)
    requires start >= 1
  {
    sum <= amount ||
      2 * sum * start <= start * start * start + (if 2 * amount >= start * start then 2 * amount else start * start)
  }

  // ---------------------------------------------------------------- sums

  lemma {:induction false} SumSnoc(list: seq<int>, x: int)
    ensures Sum(list + [x]) == Sum(list) + x
  {
    if list == [] {
      assert list + [x] == [x];
    } else {
      assert (list + [x])[1..] == list[1..] + [x];
      SumSnoc(list[1..], x);
    }
  }

  lemma {:induction false} AtLeastSnoc(list: seq<int>, x: int, i: int)
    ensures AtLeast(list + [x], i) == AtLeast(list, i) + if x >= i then x else 0
  {
    if list == [] {
      assert list + [x] == [x];
    } else {
      assert (list + [x])[1..] == list[1..] + [x];
      AtLeastSnoc(list[1..], x, i);
    }
  }

  lemma {:induction false} AtLeastAll(list: seq<int>, i: int)
    requires forall x | x in list :: x >= i
    ensures AtLeast(list, i) == Sum(list)
  {
    if list != [] {
      assert list[0] in list && forall x | x in list[1..] :: x in list;
      AtLeastAll(list[1..], i);
    }
  }

  // ---------------------------------------------------------------- distance

  lemma {:induction false} NearestOf(list: seq<int>, target: int, i: int, n: nat)
    requires i >= 1 && n >= 1 && AtLeast(list, i) == AtLeast(list, i + 1) + n * i
    requires 2 * (target - AtLeast(list, i)) <= i
    requires n == 1 || 2 * (target - (AtLeast(list, i) - i)) > i
    ensures Nearest(list, target, i)
  {
    var base, sum := AtLeast(list, i + 1), AtLeast(list, i);
    forall k: nat | k >= 1 ensures Abs(target - sum) <= Abs(target - (base + k * i)) {
      if k > n {
        Times(k, n + 1, i);
        assert (n + 1) * i == n * i + i;
      } else if k < n {
        Times(n - 1, k, i);
        assert (n - 1) * i == n * i - i;
      }
      hide AtLeast;
    }
  }

  lemma {:induction false} Times(a: int, b: int, i: int)
    requires a >= b && i >= 0
    ensures a * i >= b * i
  {}

  // ---------------------------------------------------------------- the bound

  // Between its ends a quadratic with this leading sign is below the larger of them.
  lemma {:induction false} ConvexBound(a: int, s: int, i: int)
    requires 1 <= i <= s && a >= 0
    ensures 2 * a * (s + 1 - i) + s * i * i <= 2 * a * s + s || 2 * a * (s + 1 - i) + s * i * i <= 2 * a + s * s * s
  {
    // The differences from the ends are (i - 1) * (s * (i + 1) - 2 * a) and (s - i) * (2 * a - s * (s + i)).
    FirstEnd(a, s, i);
    LastEnd(a, s, i);
    if s * (i + 1) <= 2 * a {
      NotPositive(i - 1, s * (i + 1) - 2 * a);
    } else {
      assert s * (s + i) >= s * (i + 1) by { Times(s + i, i + 1, s); }
      NotPositive(s - i, 2 * a - s * (s + i));
    }
  }

  lemma {:induction false} NotPositive(x: int, y: int)
    requires x >= 0 >= y
    ensures x * y <= 0
  {}

  lemma {:induction false} FirstEnd(a: int, s: int, i: int)
    ensures 2 * a * (s + 1 - i) + s * i * i - (2 * a * s + s) == (i - 1) * (s * (i + 1) - 2 * a)
  {
    assert (i - 1) * (s * (i + 1) - 2 * a) == (i - 1) * (s * (i + 1)) - (i - 1) * (2 * a);
    assert (i - 1) * (s * (i + 1)) == s * ((i - 1) * (i + 1)) == s * (i * i - 1) == s * i * i - s;
    assert 2 * a * (s + 1 - i) == 2 * a * s - (i - 1) * (2 * a);
  }

  lemma {:induction false} LastEnd(a: int, s: int, i: int)
    ensures 2 * a * (s + 1 - i) + s * i * i - (2 * a + s * s * s) == (s - i) * (2 * a - s * (s + i))
  {
    assert (s - i) * (2 * a - s * (s + i)) == (s - i) * (2 * a) - (s - i) * (s * (s + i));
    assert (s - i) * (s * (s + i)) == s * ((s - i) * (s + i)) == s * (s * s - i * i) == s * s * s - s * i * i;
    assert 2 * a * (s + 1 - i) == 2 * a + (s - i) * (2 * a);
  }

  // The sum when all rounds after a repeated one come once.
  lemma {:induction false} BoundAfter(amount: nat, start: int, i: int, target: int, sum: int, total: int)
    requires 1 <= i <= start && target == Target(amount, start, i)
    requires 2 * sum < 2 * target + i && 2 * total == 2 * sum + i * (i - 1)
    ensures Bounded(amount, start, total)
  {
    var n := start + 1 - i;
    assert 2 * total < 2 * target + i * i;
    assert start * target <= n * amount;
    hide Target;
    assert start * (2 * total) < start * (2 * target + i * i);
    assert start * (2 * target + i * i) == 2 * (start * target) + start * i * i;
    assert 2 * amount * n == 2 * (n * amount);
    ConvexBound(amount, start, i);
    if 2 * amount * n + start * i * i <= 2 * amount * start + start {
      assert start * (2 * total) < start * (2 * amount + 1);
      Cancel(2 * total, 2 * amount + 1, start);
    } else {
      assert 2 * total * start == start * (2 * total) <= 2 * amount + start * start * start;
    }
  }

  lemma {:induction false} Cancel(x: int, y: int, d: int)
    requires d > 0 && d * x < d * y
    ensures x < y
  {
    if x >= y {
      Times(x, y, d);
    }
  }

  // ---------------------------------------------------------------- the list

  // What the rounds from `start` down to `i` have made of the list.
  ghost predicate Rounds(list: seq<int>, amount: nat, start: int, i: int) {
    && NonIncreasing(list)
    && (forall x :: x in list <==> i <= x <= start)
    && (forall j | i <= j <= start && 1 <= j :: Nearest(list, Target(amount, start, j), j))
  }

  // How the sum has come about: from single rounds after the last value that was repeated (`p`, or none when it is
  // beyond `start`), up to which the sum was `sumP`.
  ghost predicate Capped(amount: nat, start: int, i: int, p: int, sumP: int, sum: int)
    requires start >= 1
  {
    if p == start + 1 then 2 * sum == start * (start + 1) - i * (i + 1)
    else
      && i < p <= start && 1 <= p && 2 * sumP < 2 * Target(amount, start, p) + p
      && 2 * sum == 2 * sumP + p * (p - 1) - i * (i + 1)
  }

  lemma {:induction false} CappedIsBounded(amount: nat, start: int, p: int, sumP: int, sum: int)
    requires start >= 1 && Capped(amount, start, 0, p, sumP, sum)
    ensures Bounded(amount, start, sum)
  {
    if p == start + 1 {
      assert 2 * sum * start == start * (start + 1) * start == start * start * start + start * start;
    } else {
      BoundAfter(amount, start, p, Target(amount, start, p), sumP, sum);
    }
  }

  function Copies(i: int, n: nat): seq<int> {
    seq(n, _ => i)
  }

  lemma {:induction false} SumCopies(list: seq<int>, i: int, n: nat)
    ensures Sum(list + Copies(i, n)) == Sum(list) + n * i
    ensures forall j :: AtLeast(list + Copies(i, n), j) == AtLeast(list, j) + if i >= j then n * i else 0
  {
    if n == 0 {
      assert list + Copies(i, n) == list;
    } else {
      SumCopies(list, i, n - 1);
      assert list + Copies(i, n) == (list + Copies(i, n - 1)) + [i];
      SumSnoc(list + Copies(i, n - 1), i);
      assert n * i == (n - 1) * i + i;
      forall j ensures AtLeast(list + Copies(i, n), j) == AtLeast(list, j) + if i >= j then n * i else 0 {
        AtLeastSnoc(list + Copies(i, n - 1), i, j);
      }
    }
  }

  lemma {:induction false} RoundsMore(list: seq<int>, amount: nat, start: int, i: int, n: nat)
    requires 1 <= i <= start && n >= 1 && Rounds(list, amount, start, i + 1)
    requires var sum := Sum(list) + n * i;
      2 * (Target(amount, start, i) - sum) <= i && (n == 1 || 2 * (Target(amount, start, i) - (sum - i)) > i)
    ensures Rounds(list + Copies(i, n), amount, start, i)
  {
    var more := list + Copies(i, n);
    SumCopies(list, i, n);
    AtLeastAll(list, i + 1);
    AtLeastAll(list, i);
    NearestOf(more, Target(amount, start, i), i, n);
    NonIncreasingMore(list, i, n);
    hide NonIncreasing, Target;
    forall x ensures x in more <==> i <= x <= start {
      assert more[|list|] == i;
      assert x in more <==> x in list || x in Copies(i, n);
    }
    forall j | i <= j <= start && 1 <= j ensures Nearest(more, Target(amount, start, j), j) {
      if j > i {
        assert Nearest(list, Target(amount, start, j), j);
        assert AtLeast(more, j) == AtLeast(list, j) && AtLeast(more, j + 1) == AtLeast(list, j + 1);
      }
    }
  }

  lemma {:induction false} NonIncreasingMore(list: seq<int>, i: int, n: nat)
    requires NonIncreasing(list) && forall x | x in list :: x >= i
    ensures NonIncreasing(list + Copies(i, n))
  {
    assert forall k | 0 <= k < |list| :: list[k] in list;
  }

  // The rounds of one value: one, and more while they bring the sum nearer to the target.
  method Repeat(list0: seq<int>, sum0: int, i: int, med: int) returns (list: seq<int>, sum: int, ghost n: nat)
    requires i > 0 && med >= 0 && sum0 >= 0
    ensures n >= 1 && list == list0 + Copies(i, n) && sum == sum0 + n * i
    ensures 2 * (med - sum) <= i && (n == 1 || 2 * (med - (sum - i)) > i)
  {
    sum := sum0 + i;
    list := list0 + [i];
    n := 1;
    assert Copies(i, 1) == [i];
    while Nearer(med, sum, i)
      invariant n >= 1 && list == list0 + Copies(i, n) && sum == sum0 + n * i >= 0
      invariant n == 1 || 2 * (med - (sum - i)) > i
      decreases Abs(med - sum)
    {
      assert Copies(i, n + 1) == Copies(i, n) + [i];
      assert (n + 1) * i == n * i + i;
      sum := sum + i;
      list := list + [i];
      n := n + 1;
    }
  }

  // Rounds of `start`, `start - 1` and so on down to 1: each value at least once, and as often as brings the sum
  // nearest to its share of the amount. The total is no less than the amount and never much more.
  method GenerateDamageList(damage: int, start: int) returns (list: seq<int>)
    ensures start < 1 ==> list == []
    ensures start >= 1 ==> Rounds(list, Abs(damage), start, 1)
    ensures start >= 1 ==> Abs(damage) <= Sum(list) && Bounded(Abs(damage), start, Sum(list))
  {
    hide Rounds, Bounded, Capped;
    var amount := Abs(damage);
    var sum := 0;
    list := [];
    var i := start;
    ghost var p, sumP := start + 1, 0;
    if start >= 1 {
      NoRounds(amount, start);
    }
    while i > 0
      invariant start >= 1 ==>
        0 <= i <= start && Rounds(list, amount, start, i + 1) && Capped(amount, start, i, p, sumP, sum)
      invariant start < 1 ==> list == [] && i == start
      invariant sum == Sum(list) >= 0
      invariant 1 <= i + 1 <= start ==> 2 * (Target(amount, start, i + 1) - sum) <= i + 1
    {
      var n := start + 1 - i;
      TargetIs(amount, start, i);
      var med := n * amount / start;
      ghost var before, beforeSum := list, sum;
      ghost var times;
      list, sum, times := Repeat(list, sum, i, med);
      SumCopies(before, i, times);
      Times(times, 0, i);
      RoundsMore(before, amount, start, i, times);
      CappedMore(amount, start, i, p, sumP, beforeSum, times);
      if times > 1 {
        p, sumP := i, sum;
      }
      i := i - 1;
    }
    if start >= 1 {
      LastTarget(amount, start);
      CappedIsBounded(amount, start, p, sumP, sum);
    }
  }

  lemma {:induction false} TargetIs(amount: nat, start: int, i: int)
    requires 1 <= i <= start
    ensures Target(amount, start, i) == (start + 1 - i) * amount / start >= 0
  {
    Times(start + 1 - i, 0, amount);
    NotNegative((start + 1 - i) * amount, start);
  }

  lemma {:induction false} NotNegative(x: int, d: int)
    requires x >= 0 && d > 0
    ensures x / d >= 0
  {}

  lemma {:induction false} LastTarget(amount: nat, start: int)
    requires start >= 1
    ensures Target(amount, start, 1) == amount
  {
    Exactly(amount, start);
  }

  lemma {:induction false} Exactly(x: int, d: int)
    requires d > 0
    ensures d * x / d == x
  {
    var q := d * x / d;
    var r := d * x % d;
    assert d * q + r == d * x;
    assert d * (x - q) == r;
    if x > q {
      Times(x - q, 1, d);
    } else if x < q {
      Times(q - x, 1, d);
    }
  }

  lemma {:induction false} NoRounds(amount: nat, start: int)
    requires start >= 1
    ensures Rounds([], amount, start, start + 1) && Capped(amount, start, start, start + 1, 0, 0) && Sum([]) == 0
  {}

  lemma {:induction false} CappedMore(amount: nat, start: int, i: int, p: int, sumP: int, sum: int, n: nat)
    requires 1 <= i <= start && Capped(amount, start, i, p, sumP, sum) && n >= 1
    requires n == 1 || 2 * (Target(amount, start, i) - (sum + n * i - i)) > i
    ensures if n > 1 then Capped(amount, start, i - 1, i, sum + n * i, sum + n * i)
      else Capped(amount, start, i - 1, p, sumP, sum + n * i)
  {
    assert (i - 1) * i == i * (i - 1);
    assert i * (i + 1) - (i - 1) * i == 2 * i;
  }
}
