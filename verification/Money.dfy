/** Paying with coins that lie in containers at any depth, and giving money as coins. */
module Money {

  const GOLD_COIN := 2148
  const PLATINUM_COIN := 2152
  const CRYSTAL_COIN := 2160

  datatype Coin = Coin(id: nat, count: nat)

  // Where items lie: each under its name, containers around others. A name whose item has been removed
  // stands for nothing.
  datatype Node = Leaf(uid: nat) | Bag(inside: seq<Node>)

  function Unit(id: nat): nat {
    if id == GOLD_COIN then 1 else if id == PLATINUM_COIN then 100 else if id == CRYSTAL_COIN then 10000 else 0
  }

  function Worth(c: Coin): nat {
    c.count * Unit(c.id)
  }

  // The names at any depth, in depth-first order.
  function Leaves(nodes: seq<Node>): seq<nat> {
    if nodes == [] then []
    else (match nodes[0] case Leaf(uid) => [uid] case Bag(inside) => Leaves(inside)) + Leaves(nodes[1..])
  }

  function WorthOf(items: map<nat, Coin>, uid: nat): nat {
    if uid in items then Worth(items[uid]) else 0
  }

  function Sum(items: map<nat, Coin>, uids: seq<nat>): nat {
    if uids == [] then 0 else WorthOf(items, uids[0]) + Sum(items, uids[1..])
  }

  function SumCoins(coins: seq<Coin>): nat {
    if coins == [] then 0 else Worth(coins[0]) + SumCoins(coins[1..])
  }

  ghost predicate Distinct(s: seq<nat>) {
    forall i, j | 0 <= i < j < |s| :: s[i] != s[j]
  }

  // ---------------------------------------------------------------- sums

  lemma {:induction false} SumConcat(items: map<nat, Coin>, a: seq<nat>, b: seq<nat>)
    ensures Sum(items, a + b) == Sum(items, a) + Sum(items, b)
  {
    if a == [] {
      assert a + b == b;
    } else {
      assert (a + b)[1..] == a[1..] + b;
      SumConcat(items, a[1..], b);
    }
  }

  lemma {:induction false} SumCoinsConcat(a: seq<Coin>, b: seq<Coin>)
    ensures SumCoins(a + b) == SumCoins(a) + SumCoins(b)
  {
    if a == [] {
      assert a + b == b;
    } else {
      assert (a + b)[1..] == a[1..] + b;
      SumCoinsConcat(a[1..], b);
    }
  }

  lemma {:induction false} SumSame(items: map<nat, Coin>, items': map<nat, Coin>, uids: seq<nat>)
    requires forall u | u in uids :: WorthOf(items, u) == WorthOf(items', u)
    ensures Sum(items, uids) == Sum(items', uids)
  {
    if uids != [] {
      SumSame(items, items', uids[1..]);
    }
  }

  // When one item changes, the sum over names listed once changes by as much.
  lemma {:induction false} SumChange(items: map<nat, Coin>, items': map<nat, Coin>, uids: seq<nat>, uid: nat)
    requires Distinct(uids) && uid in uids
    requires forall u | u in uids && u != uid :: WorthOf(items, u) == WorthOf(items', u)
    ensures Sum(items', uids) + WorthOf(items, uid) == Sum(items, uids) + WorthOf(items', uid)
  {
    if uids[0] == uid {
      assert forall u | u in uids[1..] :: u != uid;
      SumSame(items, items', uids[1..]);
    } else {
      SumChange(items, items', uids[1..], uid);
    }
  }

  lemma {:induction false} WithoutAt(s: seq<nat>, k: nat)
    requires k < |s|
    ensures multiset(s[..k] + s[k + 1..]) == multiset(s) - multiset{s[k]}
  {
    assert s == s[..k] + [s[k]] + s[k + 1..];
  }

  lemma {:induction false} SumWithoutAt(items: map<nat, Coin>, s: seq<nat>, k: nat)
    requires k < |s|
    ensures Sum(items, s) == Sum(items, s[..k] + s[k + 1..]) + WorthOf(items, s[k])
  {
    assert s == s[..k] + ([s[k]] + s[k + 1..]);
    SumConcat(items, s[..k], [s[k]] + s[k + 1..]);
    SumConcat(items, [s[k]], s[k + 1..]);
    SumConcat(items, s[..k], s[k + 1..]);
    assert Sum(items, [s[k]]) == WorthOf(items, s[k]) + Sum(items, []);
  }

  // Sums do not depend on order.
  lemma {:induction false} SumOfMultiset(items: map<nat, Coin>, a: seq<nat>, b: seq<nat>)
    requires multiset(a) == multiset(b)
    ensures Sum(items, a) == Sum(items, b)
  {
    assert |a| == |multiset(a)| == |multiset(b)| == |b|;
    if a != [] {
      assert a[0] in multiset(b);
      var k :| 0 <= k < |b| && b[k] == a[0];
      SameWithout(a, b, k);
      SumOfMultiset(items, a[1..], b[..k] + b[k + 1..]);
      SumWithoutAt(items, b, k);
    }
  }

  lemma {:induction false} SameWithout(a: seq<nat>, b: seq<nat>, k: nat)
    requires a != [] && multiset(a) == multiset(b) && k < |b| && b[k] == a[0]
    ensures multiset(a[1..]) == multiset(b[..k] + b[k + 1..])
  {
    WithoutAt(b, k);
    assert multiset(a[1..]) == multiset(a) - multiset{a[0]} by {
      assert a == [a[0]] + a[1..];
      assert multiset(a) == multiset{a[0]} + multiset(a[1..]);
    }
  }

  // ---------------------------------------------------------------- the holder

  class Holder {
    var nodes: seq<Node>
    var items: map<nat, Coin>
    var ground: seq<Coin>
    var nextUid: nat

    ghost predicate Valid()
      reads this
    {
      && Distinct(Leaves(nodes))
      && (forall u | u in Leaves(nodes) :: u < nextUid)
      && (forall u | u in items :: u < nextUid)
    }

    // What is held at any depth.
    ghost function Held(): nat
      reads this
    {
      Sum(items, Leaves(nodes))
    }

    // Held money and what has been dropped.
    ghost function Wealth(): nat
      reads this
    {
      Held() + SumCoins(ground)
    }

    // A created coin stack goes to the holder if it fits there, and to the ground otherwise.
    method Place(coin: Coin, fits: bool)
      requires Valid()
      modifies this
      ensures Valid() && nextUid == old(nextUid) + 1
      ensures Wealth() == old(Wealth()) + Worth(coin)
      ensures fits ==> Held() == old(Held()) + Worth(coin)
      ensures forall u | u < old(nextUid) :: u in items <==> u in old(items)
      ensures forall u | u < old(nextUid) && u in items :: items[u] == old(items)[u]
      ensures forall u | u in Leaves(old(nodes)) :: u in Leaves(nodes)
    {
      var uid := nextUid;
      nextUid := nextUid + 1;
      if fits {
        ghost var leaves, before := Leaves(nodes), items;
        assert ([Leaf(uid)] + nodes)[1..] == nodes;
        nodes := [Leaf(uid)] + nodes;
        items := items[uid := coin];
        assert Leaves(nodes) == [uid] + leaves;
        assert ([uid] + leaves)[1..] == leaves;
        SumSame(before, items, leaves);
        assert Sum(items, [uid] + leaves) == Worth(coin) + Sum(before, leaves);
      } else {
        SumCoinsConcat(ground, [coin]);
        assert SumCoins([coin]) == Worth(coin) + SumCoins([]);
        ground := ground + [coin];
      }
    }

    // Takes `count` of an item's units, the item itself when none is left.
    method RemoveItem(uid: nat, count: nat)
      requires Valid() && uid in items && uid in Leaves(nodes) && 1 <= count <= items[uid].count
      modifies this`items
      ensures Valid()
      ensures Held() + count * Unit(old(items[uid]).id) == old(Held())
      ensures WorthOf(items, uid) + count * Unit(old(items[uid]).id) == old(WorthOf(items, uid))
      ensures forall u | u != uid :: (u in items <==> u in old(items)) && (u in items ==> items[u] == old(items)[u])
    {
      ghost var before := items;
      var coin := items[uid];
      items := if count == coin.count then items - {uid} else items[uid := coin.(count := coin.count - count)];
      SumChange(before, items, Leaves(nodes), uid);
      assert coin.count * Unit(coin.id) == (coin.count - count) * Unit(coin.id) + count * Unit(coin.id);
    }
  }

  // ---------------------------------------------------------------- giving money

  const WIDTH32 := 0x1_0000_0000
  const WIDTH16 := 65536

  // What addMoney creates, worth by worth, in its own integer widths: the product of the number of crystal
  // coins with 10000 wraps at 32 bits, and a stack keeps the low byte of its count.
  function CrystalCoins(money: nat): nat {
    (money / 10000) % WIDTH32
  }

  function AfterCrystal(money: nat): nat {
    money - CrystalCoins(money) * 10000 % WIDTH32
  }

  // A stack asked for with no units has one.
  function GoldCount(gold: nat): nat {
    if gold % WIDTH16 == 0 then 1 else gold % WIDTH16 % 256
  }

  function CreatedSmall(rest: nat): nat {
    var platinum := rest / 100 % WIDTH16;
    var gold := rest - platinum * 100;
    (if platinum != 0 then platinum % 256 * 100 else 0) + (if gold != 0 then GoldCount(gold) else 0)
  }

  function Created(money: nat): nat {
    CrystalCoins(money) * 10000 + CreatedSmall(AfterCrystal(money))
  }

  // The product of the crystal coins with 10000 fits its 32 bits: money below 4294970000.
  predicate FitsCrystal(money: nat) {
    money / 10000 * 10000 < WIDTH32
  }

  lemma {:induction false} GoldIsItself(gold: nat)
    requires gold < 100
    ensures gold > 0 ==> GoldCount(gold) == gold
  {}

  lemma {:induction false} SmallExactly(rest: nat)
    requires rest < 10000
    ensures CreatedSmall(rest) == rest
  {
    SmallParts(rest);
    hide CreatedSmall;
    assert rest / 100 < 100;
    assert rest / 100 % 65536 == rest / 100 == rest / 100 % 256;
    DivMod(rest, 100);
    GoldIsItself(rest % 100);
  }

  lemma {:induction false} CreatedExactly(money: nat)
    requires FitsCrystal(money)
    ensures Created(money) == money && CrystalCoins(money) == money / 10000 && AfterCrystal(money) == money % 10000
  {
    var rest := money % 10000;
    SmallExactly(rest);
    hide CreatedSmall;
    assert CrystalCoins(money) == money / 10000;
    assert AfterCrystal(money) == rest;
  }

  // How often the product of the crystal coins with 10000 goes round its 32 bits.
  function Rounds(money: nat): nat {
    money / 10000 * 10000 / WIDTH32
  }

  // What is created is what was asked for as long as nothing is cut off, and again by chance: after every 25
  // rounds what is left over is a multiple of all the later widths, and only a last stack without units is wrong.
  lemma {:induction false} CreatedParts(money: nat)
    requires money / 10000 < WIDTH32
    ensures CrystalCoins(money) == money / 10000
    ensures AfterCrystal(money) == Rounds(money) * WIDTH32 + money % 10000
    ensures money == money / 10000 * 10000 + money % 10000
  {}

  lemma {:induction false} CreatedIff(money: nat)
    ensures Created(money) == money <==>
      money / 10000 < WIDTH32 && (Rounds(money) == 0 || (Rounds(money) % 25 == 0 && money % 100 != 0))
    ensures FitsCrystal(money) <==> Rounds(money) == 0
  {
    var n, m, q := money / 10000, money % 10000, Rounds(money);
    if n < WIDTH32 {
      LeftOver(q, m);
      Hundreds(n, m);
      CreatedParts(money);
      hide CreatedSmall, CrystalCoins, AfterCrystal;
    } else {
      TooMuch(money);
      hide Created;
    }
  }

  lemma {:induction false} Hundreds(n: nat, m: nat)
    ensures (n * 10000 + m) % 100 == m % 100
  {
    ShiftedMod(n * 100, m, 100);
  }

  lemma {:induction false} TooMuch(money: nat)
    requires money / 10000 >= WIDTH32
    ensures Created(money) != money
  {
    var c := CrystalCoins(money);
    SmallIsSmall(AfterCrystal(money));
    if money / 10000 >= WIDTH32 + 3 {
      assert Created(money) < WIDTH32 * 10000 + 30000;
    } else {
      assert c == money / 10000 - WIDTH32 <= 2;
    }
  }

  lemma {:induction false} SmallIsSmall(rest: nat)
    ensures CreatedSmall(rest) <= 25755
  {}

  // Worth of the platinum and gold, from the low byte of the number of platinum coins and the rest.
  function SmallWorth(platinum: nat, gold: nat): nat {
    platinum * 100 + if gold == 0 then 0 else GoldCount(gold)
  }

  lemma {:induction false} LeftOver(q: nat, m: nat)
    requires m < 10000
    ensures CreatedSmall(q * WIDTH32 + m) == m <==> q == 0 || (q % 25 == 0 && m % 100 != 0)
  {
    var s, rest := q % 25, q * WIDTH32 + m;
    var platinum := rest / 100 % 65536;
    var gold, a := rest - platinum * 100, platinum % 256;
    SmallParts(rest);
    PlatinumOf(q, m);
    GoldLeft(q, m, platinum);
    PlatinumLeft(s, m);
    hide *;
    if s == 0 {
      WholePlatinum(m);
      assert gold == q * WIDTH32 + m % 100 by { DivMod(m, 100); }
      GoldOfWholeRounds(q, m, gold);
    } else {
      OffByRounds(s, m, a, gold);
    }
  }

  lemma {:induction false} DivMod(x: int, d: int)
    requires d > 0
    ensures x == x / d * d + x % d
  {}

  lemma {:induction false} SmallParts(rest: nat)
    ensures var platinum := rest / 100 % 65536;
      rest >= platinum * 100 && CreatedSmall(rest) == SmallWorth(platinum % 256, rest - platinum * 100)
  {}

  lemma {:induction false} PlatinumOf(q: nat, m: nat)
    ensures (q * WIDTH32 + m) / 100 % 65536 == (q % 25 * WIDTH32 + m) / 100 % 65536
  {
    var k, s := q / 25, q % 25;
    assert q * WIDTH32 + m == k * 107374182400 + (s * WIDTH32 + m);
    Hundredths(k, s * WIDTH32 + m);
    ShiftedMod(k * 16384, (s * WIDTH32 + m) / 100, 65536);
  }

  lemma {:induction false} WholePlatinum(m: nat)
    requires m < 10000
    ensures (0 * WIDTH32 + m) / 100 % 65536 == m / 100 == m / 100 % 256
  {}

  lemma {:induction false} GoldLeft(q: nat, m: nat, platinum: nat)
    ensures (q * WIDTH32 + m - platinum * 100) % 256 == (m - platinum % 256 * 100) % 256
  {
    var a := platinum % 256;
    assert q * WIDTH32 + m - platinum * 100 == (q * 16777216 - platinum / 256 * 100) * 256 + (m - a * 100);
    ShiftedMod(q * 16777216 - platinum / 256 * 100, m - a * 100, 256);
  }

  lemma {:induction false} PlatinumLeft(s: nat, m: nat)
    ensures (s * WIDTH32 + m) / 100 % 65536 % 256 == (s * 40 + (s * 96 + m) / 100) % 256
  {
    var part := (s * WIDTH32 + m) / 100;
    ModMod(part);
    HundredthsOfRound(s, m);
    assert part == s * 167772 * 256 + (s * 40 + (s * 96 + m) / 100);
    ShiftedMod(s * 167772, s * 40 + (s * 96 + m) / 100, 256);
  }

  lemma {:induction false} GoldOfWholeRounds(q: nat, m: nat, gold: nat)
    requires m < 10000 && gold == q * WIDTH32 + m % 100
    ensures SmallWorth(m / 100, gold) == m <==> q == 0 || m % 100 != 0
  {
    ShiftedMod(q * 65536, m % 100, 65536);
  }

  lemma {:induction false} OffByRounds(s: nat, m: nat, a: nat, gold: nat)
    requires 0 < s < 25 && m < 10000 && a == (s * 40 + (s * 96 + m) / 100) % 256
    requires gold % 256 == (m - a * 100) % 256
    ensures SmallWorth(a, gold) != m
  {
    LeftOverOfRounds(s, m, a);
    ModMod(gold);
    if gold % 65536 == 0 {
      SmallGold(m, a);
    }
  }

  lemma {:induction false} SmallGold(m: nat, a: nat)
    requires (m - a * 100) % 256 == 0
    ensures m != a * 100 + 1
  {}

  lemma {:induction false} Hundredths(k: nat, x: nat)
    ensures (k * 107374182400 + x) / 100 == k * 1073741824 + x / 100
  {}

  lemma {:induction false} HundredthsOfRound(s: nat, m: nat)
    ensures (s * WIDTH32 + m) / 100 == s * 42949672 + (s * 96 + m) / 100
  {}

  lemma {:induction false} ShiftedMod(z: int, x: int, w: int)
    requires w > 0
    ensures (z * w + x) % w == x % w
  {
    var y := z * w + x;
    MinusTimes'(w, y);
    MinusTimes'(w, x);
    assert w * (y / w - z - x / w) == x % w - y % w by {
      assert w * (y / w - z - x / w) == w * (y / w) - w * z - w * (x / w);
    }
    if x % w >= y % w {
      NoMultipleBelow(w, y / w - z - x / w);
    } else {
      assert w * (0 - (y / w - z - x / w)) == y % w - x % w;
      NoMultipleBelow(w, 0 - (y / w - z - x / w));
    }
  }

  lemma {:induction false} MinusTimes'(w: int, x: int)
    requires w > 0
    ensures w * (x / w) + x % w == x
  {}

  lemma {:induction false} ModMod(x: int)
    ensures x % 65536 % 256 == x % 256
  {
    assert x == (x / 65536 * 256) * 256 + x % 65536;
    ShiftedMod(x / 65536 * 256, x % 65536, 256);
  }

  // What is left over after `s` rounds comes out right for no `s` between 1 and 24.
  lemma {:induction false} LeftOverOfRounds(s: nat, m: nat, a: nat)
    requires s < 25 && m < 10000 && a == (s * 40 + (s * 96 + m) / 100) % 256
    ensures a * 100 + (m - a * 100) % 256 == m <==> s == 0
  {
    var d, z := m / 100, (s * 40 + (s * 96 + m) / 100) / 256;
    var j := s + d - (s * 96 + m) / 100;
    assert a + 256 * z == s * 40 + (s * 96 + m) / 100 == 41 * s + d - j;
    if s == 0 {
      assert z == 0 && a == d;
    } else if a * 100 + (m - a * 100) % 256 == m {
      assert 0 <= m - a * 100 < 256;
      NoSuchRound(s, z, d - a - j);
    }
  }

  lemma {:induction false} NoSuchRound(s: int, z: int, i: int)
    requires 1 <= s < 25 && -1 <= i <= 2
    ensures 41 * s + i != 256 * z
  {}

  // Every amount below 4294970000 is met, and that amount is not: 2704 is subtracted instead of what the crystal
  // coins are worth, and of the difference 4096 is created once more, in platinum and gold.
  lemma {:induction false} CreatedWrong(money: nat)
    ensures money < 4294970000 ==> Created(money) == money
    ensures money == 4294970000 ==> Created(money) == money + 4096
  {
    if money < 4294970000 {
      CreatedExactly(money);
    } else if money == 4294970000 {
      CrystalOfWrong();
      SmallOfWrong();
      hide CrystalCoins, AfterCrystal, CreatedSmall;
    }
  }

  lemma {:induction false} CrystalOfWrong()
    ensures CrystalCoins(4294970000) == 429497 && AfterCrystal(4294970000) == 4294967296
  {
    assert 4294970000 / 10000 == 429497;
  }

  lemma {:induction false} SmallOfWrong()
    ensures CreatedSmall(4294967296) == 4096
  {
    SmallParts(4294967296);
    hide CreatedSmall;
    assert 4294967296 / 100 == 42949672 && 42949672 % 65536 == 23592 && 23592 % 256 == 40;
    assert GoldCount(4292608096) == 96;
  }

  // Items created later than `bound` may have come in; the others are as they were, and where.
  ghost predicate Grown(bound: nat, items0: map<nat, Coin>, items1: map<nat, Coin>, leaves0: seq<nat>,
                        leaves1: seq<nat>) {
    && (forall u | u < bound :: u in items1 <==> u in items0)
    && (forall u | u < bound && u in items1 :: items1[u] == items0[u])
    && (forall u | u in leaves0 :: u in leaves1)
  }

  // The units of the coins created for an amount never reach the amount.
  ghost predicate OnlySmaller(coins: seq<Coin>, money: nat) {
    forall i | 0 <= i < |coins| && coins[i].count > 0 :: Unit(coins[i].id) <= money
  }

  // Creates coins for an amount; `fits` says of each stack whether the holder has room for it.
  method AddMoney(h: Holder, money: nat, fits: nat -> bool) returns (ghost coins: seq<Coin>)
    requires h.Valid()
    modifies h
    ensures h.Valid()
    ensures h.Wealth() == old(h.Wealth()) + SumCoins(coins) && SumCoins(coins) == Created(money)
    ensures OnlySmaller(coins, money)
    ensures Grown(old(h.nextUid), old(h.items), h.items, Leaves(old(h.nodes)), Leaves(h.nodes))
    ensures old(h.nextUid) <= h.nextUid
  {
    hide CrystalCoins, AfterCrystal, CreatedSmall, Sum, Leaves, Holder.Valid, Holder.Held, Holder.Wealth;
    SmallCoins(money);
    coins := [];
    CreatedExactly(0);
    if money == 0 {
      return;
    }
    var crystalCoins := CrystalCoins(money);
    var rest := AfterCrystal(money);
    var placed := 0;
    while crystalCoins > 0
      invariant h.Valid() && old(h.nextUid) <= h.nextUid
      invariant h.Wealth() == old(h.Wealth()) + SumCoins(coins)
      invariant SumCoins(coins) + crystalCoins * 10000 == CrystalCoins(money) * 10000
      invariant OnlySmaller(coins, money) && 0 <= crystalCoins <= CrystalCoins(money)
      invariant Grown(old(h.nextUid), old(h.items), h.items, Leaves(old(h.nodes)), Leaves(h.nodes))
    {
      var count := if crystalCoins < 100 then crystalCoins else 100;
      coins := Give(h, Coin(CRYSTAL_COIN, count), fits(placed), coins);
      placed := placed + 1;
      crystalCoins := crystalCoins - count;
    }
    coins := AddSmallCoins(h, rest, fits(placed), fits(placed + 1), coins);
  }

  lemma {:induction false} SmallCoins(money: nat)
    ensures AfterCrystal(money) <= money
    ensures Created(money) == CrystalCoins(money) * 10000 + CreatedSmall(AfterCrystal(money))
    ensures CrystalCoins(money) > 0 ==> money >= 10000
  {}

  // The platinum and the gold coins for what is left after the crystal coins.
  method AddSmallCoins(h: Holder, money: nat, fitsPlatinum: bool, fitsGold: bool, ghost coins0: seq<Coin>)
    returns (ghost coins: seq<Coin>)
    requires h.Valid()
    modifies h
    ensures h.Valid() && old(h.nextUid) <= h.nextUid
    ensures SumCoins(coins) == SumCoins(coins0) + CreatedSmall(money)
    ensures h.Wealth() == old(h.Wealth()) + CreatedSmall(money)
    ensures forall bound | money <= bound && OnlySmaller(coins0, bound) :: OnlySmaller(coins, bound)
    ensures Grown(old(h.nextUid), old(h.items), h.items, Leaves(old(h.nodes)), Leaves(h.nodes))
  {
    hide Sum, Leaves, Holder.Valid, Holder.Held, Holder.Wealth;
    coins := coins0;
    var rest := money;
    var platinumCoins := rest / 100 % WIDTH16;
    if platinumCoins != 0 {
      coins := Give(h, Coin(PLATINUM_COIN, platinumCoins % 256), fitsPlatinum, coins);
      rest := rest - platinumCoins * 100;
    }
    if rest != 0 {
      coins := Give(h, Coin(GOLD_COIN, GoldCount(rest)), fitsGold, coins);
    }
  }

  method Give(h: Holder, coin: Coin, fits: bool, ghost coins0: seq<Coin>) returns (ghost coins: seq<Coin>)
    requires h.Valid()
    modifies h
    ensures h.Valid() && old(h.nextUid) <= h.nextUid
    ensures coins == coins0 + [coin] && SumCoins(coins) == SumCoins(coins0) + Worth(coin)
    ensures h.Wealth() == old(h.Wealth()) + Worth(coin)
    ensures Grown(old(h.nextUid), old(h.items), h.items, Leaves(old(h.nodes)), Leaves(h.nodes))
  {
    h.Place(coin, fits);
    coins := coins0 + [coin];
    SumCoinsConcat(coins0, [coin]);
    assert SumCoins([coin]) == Worth(coin) + SumCoins([]);
  }

  // ---------------------------------------------------------------- paying

  // The names of held items that are worth something, at any depth.
  function Coins(items: map<nat, Coin>, uids: seq<nat>): seq<nat> {
    if uids == [] then []
    else (if WorthOf(items, uids[0]) != 0 then [uids[0]] else []) + Coins(items, uids[1..])
  }

  lemma {:induction false} CoinsConcat(items: map<nat, Coin>, a: seq<nat>, b: seq<nat>)
    ensures Coins(items, a + b) == Coins(items, a) + Coins(items, b)
  {
    if a == [] {
      assert a + b == b;
    } else {
      assert (a + b)[1..] == a[1..] + b;
      CoinsConcat(items, a[1..], b);
    }
  }

  lemma {:induction false} CoinsSum(items: map<nat, Coin>, uids: seq<nat>)
    ensures Sum(items, Coins(items, uids)) == Sum(items, uids)
    ensures forall u | u in Coins(items, uids) :: u in uids && WorthOf(items, u) > 0
  {
    if uids != [] {
      CoinsSum(items, uids[1..]);
      SumConcat(items, if WorthOf(items, uids[0]) != 0 then [uids[0]] else [], Coins(items, uids[1..]));
    }
  }

  // The coins below a list of nodes.
  ghost function CoinsIn(items: map<nat, Coin>, nodes: seq<Node>): multiset<nat> {
    multiset(Coins(items, Leaves(nodes)))
  }

  ghost function CoinsInBags(items: map<nat, Coin>, bags: seq<Node>): multiset<nat>
    requires forall b | b in bags :: b.Bag?
  {
    if bags == [] then multiset{} else CoinsIn(items, bags[0].inside) + CoinsInBags(items, bags[1..])
  }

  lemma {:induction false} CoinsInBagsConcat(items: map<nat, Coin>, bags: seq<Node>, more: seq<Node>)
    requires (forall b | b in bags :: b.Bag?) && (forall b | b in more :: b.Bag?)
    requires forall b | b in bags + more :: b.Bag?
    ensures CoinsInBags(items, bags + more) == CoinsInBags(items, bags) + CoinsInBags(items, more)
  {
    if bags == [] {
      assert bags + more == more;
    } else {
      assert (bags + more)[1..] == bags[1..] + more;
      CoinsInBagsConcat(items, bags[1..], more);
    }
  }

  lemma {:induction false} CoinsInSnoc(items: map<nat, Coin>, nodes: seq<Node>, node: Node)
    ensures CoinsIn(items, nodes + [node]) == CoinsIn(items, nodes) +
      match node
      case Leaf(uid) => (if WorthOf(items, uid) != 0 then multiset{uid} else multiset{})
      case Bag(inside) => CoinsIn(items, inside)
  {
    LeavesSnoc(nodes, node);
    CoinsConcat(items, Leaves(nodes), Leaves([node]));
    match node
    case Leaf(uid) =>
      assert Leaves([node]) == [uid];
      assert Coins(items, [uid]) == if WorthOf(items, uid) != 0 then [uid] else [];
    case Bag(inside) =>
      assert Leaves([node]) == Leaves(inside);
  }

  lemma {:induction false} LeavesSnoc(nodes: seq<Node>, node: Node)
    ensures Leaves(nodes + [node]) == Leaves(nodes) + Leaves([node])
  {
    if nodes == [] {
      assert nodes + [node] == [node];
    } else {
      assert (nodes + [node])[1..] == nodes[1..] + [node];
      LeavesSnoc(nodes[1..], node);
    }
  }

  // The multimap: names by ascending worth, later ones behind earlier ones of the same worth.
  ghost predicate Sorted(items: map<nat, Coin>, uids: seq<nat>) {
    forall i, j | 0 <= i < j < |uids| :: WorthOf(items, uids[i]) <= WorthOf(items, uids[j])
  }

  lemma {:induction false} SortedInsert(items: map<nat, Coin>, s: seq<nat>, k: nat, uid: nat)
    requires Sorted(items, s) && k <= |s|
    requires forall j | 0 <= j < k :: WorthOf(items, s[j]) <= WorthOf(items, uid)
    requires forall j | k <= j < |s| :: WorthOf(items, uid) <= WorthOf(items, s[j])
    ensures Sorted(items, s[..k] + [uid] + s[k..])
    ensures multiset(s[..k] + [uid] + s[k..]) == multiset(s) + multiset{uid}
  {
    assert s == s[..k] + s[k..];
    var r := s[..k] + [uid] + s[k..];
    hide WorthOf;
    forall i, j | 0 <= i < j < |r| ensures WorthOf(items, r[i]) <= WorthOf(items, r[j]) {
      assert i < k ==> r[i] == s[i];
      assert i > k ==> r[i] == s[i - 1];
      assert j < k ==> r[j] == s[j];
      assert j > k ==> r[j] == s[j - 1];
    }
  }

  // Places a name in the multimap.
  method Emplace(items: map<nat, Coin>, moneyMap: seq<nat>, uid: nat) returns (r: seq<nat>)
    requires Sorted(items, moneyMap)
    ensures Sorted(items, r)
    ensures multiset(r) == multiset(moneyMap) + multiset{uid}
  {
    hide WorthOf;
    var k := |moneyMap|;
    while k > 0 && WorthOf(items, moneyMap[k - 1]) > WorthOf(items, uid)
      invariant 0 <= k <= |moneyMap|
      invariant forall j | k <= j < |moneyMap| :: WorthOf(items, uid) < WorthOf(items, moneyMap[j])
    {
      k := k - 1;
    }
    assert forall j | 0 <= j < k :: WorthOf(items, moneyMap[j]) <= WorthOf(items, moneyMap[k - 1]);
    SortedInsert(items, moneyMap, k, uid);
    r := moneyMap[..k] + [uid] + moneyMap[k..];
  }
  // Containers at any depth.
  ghost function Bags(nodes: seq<Node>): nat {
    if nodes == [] then 0
    else (match nodes[0] case Leaf(_) => 0 case Bag(inside) => 1 + Bags(inside)) + Bags(nodes[1..])
  }

  lemma {:induction false} BagsConcat(a: seq<Node>, b: seq<Node>)
    ensures Bags(a + b) == Bags(a) + Bags(b)
  {
    if a == [] {
      assert a + b == b;
    } else {
      assert (a + b)[1..] == a[1..] + b;
      BagsConcat(a[1..], b);
    }
  }

  // A multimap with the sum of its keys.
  ghost predicate Tallied(items: map<nat, Coin>, moneyMap: seq<nat>, moneyCount: nat) {
    Sorted(items, moneyMap) && moneyCount == Sum(items, moneyMap)
  }

  // One container's list: its coins go to the multimap, its containers to the end of the list of containers.
  method Walk(items: map<nat, Coin>, nodes: seq<Node>, containers0: seq<Node>, moneyMap0: seq<nat>, moneyCount0: nat)
      returns (containers: seq<Node>, moneyMap: seq<nat>, moneyCount: nat, ghost more: seq<Node>)
    requires Tallied(items, moneyMap0, moneyCount0)
    ensures Tallied(items, moneyMap, moneyCount)
    ensures containers == containers0 + more && (forall b | b in more :: b.Bag?) && Bags(more) == Bags(nodes)
    ensures multiset(moneyMap) + CoinsInBags(items, more) == multiset(moneyMap0) + CoinsIn(items, nodes)
  {
    hide Sorted, WorthOf, CoinsIn, CoinsInBags, Bags;
    containers, moneyMap, moneyCount, more := containers0, moneyMap0, moneyCount0, [];
    WalkNone(items);
    for j := 0 to |nodes|
      invariant Tallied(items, moneyMap, moneyCount)
      invariant containers == containers0 + more && (forall b | b in more :: b.Bag?) && Bags(more) == Bags(nodes[..j])
      invariant multiset(moneyMap) + CoinsInBags(items, more) == multiset(moneyMap0) + CoinsIn(items, nodes[..j])
    {
      assert nodes[..j + 1] == nodes[..j] + [nodes[j]];
      CoinsInSnoc(items, nodes[..j], nodes[j]);
      BagsConcat(nodes[..j], [nodes[j]]);
      BagsOne(nodes[j]);
      match nodes[j]
      case Bag(inside) =>
        CoinsInBagsOne(items, nodes[j]);
        CoinsInBagsConcat(items, more, [nodes[j]]);
        BagsConcat(more, [nodes[j]]);
        Regroup(multiset(moneyMap), CoinsInBags(items, more), multiset(moneyMap0), CoinsIn(items, nodes[..j]),
          CoinsIn(items, inside));
        containers := containers + [nodes[j]];
        more := more + [nodes[j]];
      case Leaf(uid) =>
        if WorthOf(items, uid) != 0 {
          ghost var before := moneyMap;
          Regroup(multiset(before), CoinsInBags(items, more), multiset(moneyMap0), CoinsIn(items, nodes[..j]),
            multiset{uid});
          moneyCount := moneyCount + WorthOf(items, uid);
          moneyMap := Emplace(items, moneyMap, uid);
          SumOfMultiset(items, moneyMap, before + [uid]);
          SumConcat(items, before, [uid]);
          assert Sum(items, [uid]) == WorthOf(items, uid) + Sum(items, []);
        }
    }
    assert nodes[..|nodes|] == nodes;
  }

  lemma {:induction false} Regroup<T>(a: multiset<T>, b: multiset<T>, m: multiset<T>, n: multiset<T>, c: multiset<T>)
    requires a + b == m + n
    ensures a + (b + c) == m + (n + c) && (a + c) + b == m + (n + c)
  {
    assert a + (b + c) == (a + b) + c;
    assert (a + c) + b == (a + b) + c;
    assert m + (n + c) == (m + n) + c;
  }

  lemma {:induction false} Requeue<T>(m: multiset<T>, c: multiset<T>, r: multiset<T>, m': multiset<T>,
                                      more: multiset<T>)
    requires m' + more == m + c
    ensures m' + (r + more) == m + (c + r)
  {
    assert m' + (r + more) == (m' + more) + r;
    assert (m + c) + r == m + (c + r);
  }

  lemma {:induction false} WalkNone(items: map<nat, Coin>)
    ensures CoinsIn(items, []) == multiset{} == CoinsInBags(items, []) && Bags([]) == 0
  {}

  lemma {:induction false} BagsOne(node: Node)
    ensures Bags([node]) == match node case Leaf(_) => 0 case Bag(inside) => 1 + Bags(inside)
  {}

  lemma {:induction false} CoinsInBagsOne(items: map<nat, Coin>, bag: Node)
    requires bag.Bag?
    ensures CoinsInBags(items, [bag]) == CoinsIn(items, bag.inside)
  {
    assert [bag][1..] == [];
  }

  // The collecting loops: every held coin at any depth comes once, and all are counted.
  method Collect(h: Holder) returns (moneyMap: seq<nat>, moneyCount: nat)
    requires h.Valid()
    ensures Sorted(h.items, moneyMap) && moneyCount == h.Held()
    ensures multiset(moneyMap) == CoinsIn(h.items, h.nodes)
  {
    hide Sorted, WorthOf, CoinsIn, CoinsInBags, Bags;
    var items := h.items;
    ghost var all := CoinsIn(items, h.nodes);
    EmptySorted(items);
    ghost var more;
    var containers: seq<Node>;
    containers, moneyMap, moneyCount, more := Walk(items, h.nodes, [], [], 0);
    assert containers == more;
    var i := 0;
    while i < |containers|
      invariant 0 <= i <= |containers|
      invariant Tallied(items, moneyMap, moneyCount)
      invariant forall b | b in containers[i..] :: b.Bag?
      invariant multiset(moneyMap) + CoinsInBags(items, containers[i..]) == all
      decreases Bags(containers[i..])
    {
      var container := containers[i];
      assert container in containers[i..];
      assert containers[i..] == [container] + containers[i + 1..];
      ghost var rest := containers[i + 1..];
      CoinsInBagsConcat(items, [container], rest);
      CoinsInBagsOne(items, container);
      BagsConcat([container], rest);
      BagsOne(container);
      i := i + 1;
      ghost var before := multiset(moneyMap);
      containers, moneyMap, moneyCount, more := Walk(items, container.inside, containers, moneyMap, moneyCount);
      assert containers[i..] == rest + more;
      CoinsInBagsConcat(items, rest, more);
      BagsConcat(rest, more);
      Requeue(before, CoinsIn(items, container.inside), CoinsInBags(items, rest), multiset(moneyMap),
        CoinsInBags(items, more));
    }
    WalkNone(items);
    assert containers[i..] == [];
    CollectedSum(items, h.nodes, moneyMap);
  }

  lemma {:induction false} EmptySorted(items: map<nat, Coin>)
    ensures Tallied(items, [], 0)
  {}

  lemma {:induction false} CollectedSum(items: map<nat, Coin>, nodes: seq<Node>, moneyMap: seq<nat>)
    requires multiset(moneyMap) == CoinsIn(items, nodes)
    ensures Sum(items, moneyMap) == Sum(items, Leaves(nodes))
  {
    CoinsSum(items, Leaves(nodes));
    SumOfMultiset(items, moneyMap, Coins(items, Leaves(nodes)));
  }

  // ---- what the collected names are

  lemma {:induction false} DistinctCounts(s: seq<nat>)
    ensures Distinct(s) <==> forall u :: multiset(s)[u] <= 1
  {
    if s != [] {
      DistinctCounts(s[1..]);
      assert s == [s[0]] + s[1..];
      assert multiset(s) == multiset{s[0]} + multiset(s[1..]);
      if Distinct(s) {
        assert s[0] !in s[1..];
      }
      if forall u :: multiset(s)[u] <= 1 {
        assert multiset(s)[s[0]] <= 1;
        assert forall u :: multiset(s[1..])[u] <= multiset(s)[u];
        assert s[0] !in s[1..];
      }
    }
  }

  lemma {:induction false} CoinsWithin(items: map<nat, Coin>, uids: seq<nat>)
    ensures multiset(Coins(items, uids)) <= multiset(uids)
    ensures forall u | u in uids && WorthOf(items, u) > 0 :: u in Coins(items, uids)
  {
    if uids != [] {
      CoinsWithin(items, uids[1..]);
      assert uids == [uids[0]] + uids[1..];
      assert multiset(uids) == multiset{uids[0]} + multiset(uids[1..]);
    }
  }

  // The collected names are held, each comes once, and every held name worth something is among them.
  lemma {:induction false} CollectedNames(items: map<nat, Coin>, nodes: seq<Node>, moneyMap: seq<nat>)
    requires Distinct(Leaves(nodes)) && multiset(moneyMap) == CoinsIn(items, nodes)
    ensures Distinct(moneyMap)
    ensures forall u :: u in moneyMap <==> u in Leaves(nodes) && WorthOf(items, u) > 0
  {
    var uids := Leaves(nodes);
    CoinsSum(items, uids);
    CoinsWithin(items, uids);
    DistinctCounts(uids);
    forall u ensures multiset(moneyMap)[u] <= 1 {
      assert multiset(Coins(items, uids))[u] <= multiset(uids)[u];
    }
    DistinctCounts(moneyMap);
    forall u ensures u in moneyMap <==> u in Leaves(nodes) && WorthOf(items, u) > 0 {
      assert u in moneyMap <==> u in multiset(moneyMap);
    }
  }

  lemma {:induction false} UnitOf(coin: Coin)
    requires Worth(coin) > 0
    ensures coin.count > 0 && Unit(coin.id) in {1, 100, 10000} && Worth(coin) / coin.count == Unit(coin.id)
  {
    assert Worth(coin) == coin.count * Unit(coin.id);
    if coin.count > 0 {
      Quotient(coin.count, Unit(coin.id));
    }
  }

  lemma {:induction false} Quotient(d: nat, q: nat)
    requires 0 < d
    ensures d * q / d == q
  {
    var p := d * q / d;
    MinusTimes(d, q, p);
    NoMultipleBelow(d, q - p);
  }

  lemma {:induction false} MinusTimes(d: nat, q: nat, p: nat)
    requires 0 < d && p == d * q / d
    ensures d * (q - p) == d * q % d
  {
    assert d * p + d * q % d == d * q;
  }

  lemma {:induction false} NoMultipleBelow(d: int, k: int)
    requires 0 <= d * k < d
    ensures k == 0
  {
    assert k >= 1 ==> d * k >= d;
    assert k <= -1 ==> d * k <= -d;
  }

  // How many coins of a unit cover an amount below the worth of `count` of them.
  function CeilDiv(money: nat, unit: nat): nat
    requires unit > 0
  {
    (money + unit - 1) / unit
  }

  lemma {:induction false} TimesMore(w: nat, a: nat, b: nat)
    requires a <= b
    ensures w * a <= w * b
  {
    assert w * b == w * a + w * (b - a);
  }

  lemma {:induction false} LessTimes(w: nat, a: nat, b: nat)
    requires w * a < w * b
    ensures a < b
  {
    if b <= a {
      TimesMore(w, b, a);
    }
  }

  lemma {:induction false} CeilDivCovers(money: nat, unit: nat, count: nat)
    requires unit > 0 && 0 < money < count * unit
    ensures 1 <= CeilDiv(money, unit) <= count
    ensures money <= unit * CeilDiv(money, unit) < money + unit
  {
    var n := CeilDiv(money, unit);
    var m := (money + unit - 1) % unit;
    assert unit * n + m == money + unit - 1;
    assert unit * (count + 1) == count * unit + unit;
    LessTimes(unit, n, count + 1);
    LessTimes(unit, 0, n);
  }

  // No coin worth more was touched while one worth less was left alone.
  ghost predicate CheapestFirst(items0: map<nat, Coin>, items1: map<nat, Coin>, uids: seq<nat>) {
    forall u, v | u in uids && v in uids && WorthOf(items1, v) != WorthOf(items0, v) &&
      WorthOf(items1, u) == WorthOf(items0, u) > 0 ::
      WorthOf(items0, v) <= WorthOf(items0, u)
  }

  // Of the names in `uids`, exactly the first `k` collected ones have been taken from; the others are as they were.
  ghost predicate SpentFront(items0: map<nat, Coin>, items1: map<nat, Coin>, uids: seq<nat>, moneyMap: seq<nat>, k: nat)
    requires k <= |moneyMap|
  {
    && (forall u | u in uids && u !in moneyMap[..k] ::
      (u in items1 <==> u in items0) && (u in items1 ==> items1[u] == items0[u]))
    && (forall u | u in moneyMap[..k] :: WorthOf(items1, u) < WorthOf(items0, u))
  }

  lemma {:induction false} SpentNone(items: map<nat, Coin>, uids: seq<nat>, moneyMap: seq<nat>)
    ensures SpentFront(items, items, uids, moneyMap, 0) && CheapestFirst(items, items, uids)
  {}

  lemma {:induction false} SpentNext(items0: map<nat, Coin>, items1: map<nat, Coin>, items2: map<nat, Coin>,
                                     uids: seq<nat>, moneyMap: seq<nat>, k: nat)
    requires k < |moneyMap| && SpentFront(items0, items1, uids, moneyMap, k)
    requires forall u | u in moneyMap :: u in uids
    requires forall u | u in uids && u != moneyMap[k] ::
      (u in items2 <==> u in items1) && (u in items2 ==> items2[u] == items1[u])
    requires WorthOf(items2, moneyMap[k]) < WorthOf(items0, moneyMap[k])
    ensures SpentFront(items0, items2, uids, moneyMap, k + 1)
  {
    assert moneyMap[..k + 1] == moneyMap[..k] + [moneyMap[k]];
    forall u | u in moneyMap[..k + 1] ensures WorthOf(items2, u) < WorthOf(items0, u) {
      if u != moneyMap[k] {
        assert u in moneyMap[..k] && u in moneyMap && u in uids;
      }
    }
  }

  lemma {:induction false} SpentIsCheapest(items0: map<nat, Coin>, items1: map<nat, Coin>, uids: seq<nat>,
                                           moneyMap: seq<nat>, k: nat)
    requires k <= |moneyMap| && SpentFront(items0, items1, uids, moneyMap, k) && Sorted(items0, moneyMap)
    requires forall u :: u in moneyMap <==> u in uids && WorthOf(items0, u) > 0
    ensures CheapestFirst(items0, items1, uids)
  {
    forall u, v | u in uids && v in uids && WorthOf(items1, v) != WorthOf(items0, v) &&
      WorthOf(items1, u) == WorthOf(items0, u) > 0
      ensures WorthOf(items0, v) <= WorthOf(items0, u)
    {
      assert u in moneyMap && u !in moneyMap[..k] && v in moneyMap[..k];
      var i :| 0 <= i < |moneyMap| && moneyMap[i] == u;
      var j :| 0 <= j < k && moneyMap[..k][j] == v;
      assert forall n | 0 <= n < k :: moneyMap[..k][n] in moneyMap[..k] && moneyMap[..k][n] == moneyMap[n];
      assert moneyMap[j] == v;
    }
  }

  // The next collected name: still as it was collected, and the first part of what is left of the sum.
  lemma {:induction false} NextCoin(items0: map<nat, Coin>, items1: map<nat, Coin>, uids: seq<nat>, moneyMap: seq<nat>,
                                    k: nat)
    requires k < |moneyMap| && SpentFront(items0, items1, uids, moneyMap, k) && Distinct(moneyMap)
    requires forall u :: u in moneyMap <==> u in uids && WorthOf(items0, u) > 0
    ensures Sum(items0, moneyMap[k..]) == WorthOf(items0, moneyMap[k]) + Sum(items0, moneyMap[k + 1..])
    ensures moneyMap[k] in uids && moneyMap[k] in items1 && items1[moneyMap[k]] == items0[moneyMap[k]]
    ensures WorthOf(items1, moneyMap[k]) == WorthOf(items0, moneyMap[k]) == Worth(items0[moneyMap[k]]) > 0
    ensures items0[moneyMap[k]].count > 0
  {
    assert moneyMap[k] in moneyMap;
    assert moneyMap[k..][1..] == moneyMap[k + 1..];
    assert moneyMap[k] !in moneyMap[..k];
    UnitOf(items0[moneyMap[k]]);
  }

  // Takes as many coins of a stack as cover `money`, having given back the excess.
  method Break(h: Holder, uid: nat, money: nat, fits: nat -> bool) returns (ghost unit: nat, ghost change: seq<Coin>)
    requires h.Valid() && uid in h.items && uid in Leaves(h.nodes) && 0 < money < Worth(h.items[uid])
    modifies h
    ensures h.Valid() && h.Wealth() + money == old(h.Wealth())
    ensures forall u | u in Leaves(old(h.nodes)) && u != uid ::
      (u in h.items <==> u in old(h.items)) && (u in h.items ==> h.items[u] == old(h.items)[u])
    ensures WorthOf(h.items, uid) < WorthOf(old(h.items), uid)
    ensures unit == Unit(old(h.items)[uid].id) > 0
    ensures forall i | 0 <= i < |change| && change[i].count > 0 :: Unit(change[i].id) < unit
  {
    hide Leaves, Sum, Created, CrystalCoins, AfterCrystal, CreatedSmall, OnlySmaller, CeilDiv, Holder.Valid;
    var coin := h.items[uid];
    UnitOf(coin);
    HeldIs(h);
    var worth := Worth(coin) / coin.count;
    var removeCount := CeilDiv(money, worth);
    CeilDivCovers(money, worth, coin.count);
    assert removeCount * worth == worth * removeCount;
    var excess := worth * removeCount - money;
    ghost var leaves := Leaves(h.nodes);
    CreatedExactly(excess);
    change := AddMoney(h, excess, fits);
    SmallerThan(change, excess, worth);
    unit := worth;
    ghost var ground := h.ground;
    h.RemoveItem(uid, removeCount);
    assert h.ground == ground;
  }

  lemma {:induction false} SmallerThan(coins: seq<Coin>, money: nat, unit: nat)
    requires OnlySmaller(coins, money) && money < unit
    ensures forall i | 0 <= i < |coins| && coins[i].count > 0 :: Unit(coins[i].id) < unit
  {}

  // Pays `money` with held coins, the cheapest stacks first; of the last one only as many as it takes, with the
  // excess given back. `broken` is the unit of that stack, or 0.
  method RemoveMoney(h: Holder, money: nat, fits: nat -> bool)
    returns (paid: bool, ghost broken: nat, ghost change: seq<Coin>)
    requires h.Valid()
    modifies h
    ensures h.Valid()
    ensures paid <==> money <= old(h.Held())
    ensures !paid ==> h.nodes == old(h.nodes) && h.items == old(h.items) && h.ground == old(h.ground)
    ensures paid ==> h.Wealth() + money == old(h.Wealth())
    ensures paid ==> CheapestFirst(old(h.items), h.items, Leaves(old(h.nodes)))
    ensures broken == 0 ==> change == [] && h.nodes == old(h.nodes) && h.ground == old(h.ground)
    ensures forall i | 0 <= i < |change| && change[i].count > 0 :: Unit(change[i].id) < broken
  {
    hide Leaves, Sum, CoinsIn, WorthOf, CheapestFirst, SpentFront, Sorted, Distinct, Holder.Held;
    broken, change := 0, [];
    SpentNone(h.items, Leaves(h.nodes), []);
    if money == 0 {
      return true, 0, [];
    }
    var moneyMap, moneyCount := Collect(h);
    if moneyCount < money {
      return false, 0, [];
    }
    ghost var items0, nodes0, ground0, uids := h.items, h.nodes, h.ground, Leaves(h.nodes);
    HeldIs(h);
    CollectedNames(items0, nodes0, moneyMap);
    CollectedSum(items0, nodes0, moneyMap);
    SpentNone(items0, uids, moneyMap);
    assert moneyMap[0..] == moneyMap;
    var rest := money;
    var k, done := 0, false;
    while k < |moneyMap| && !done
      invariant 0 <= k <= |moneyMap| && h.Valid()
      invariant SpentFront(items0, h.items, uids, moneyMap, k)
      invariant !done ==> 0 < rest <= Sum(items0, moneyMap[k..])
      invariant !done ==> h.nodes == nodes0 && h.ground == ground0 && change == [] && broken == 0
      invariant !done ==> h.Held() + money == old(h.Held()) + rest
      invariant done ==> h.Wealth() + money == old(h.Wealth())
      invariant broken == 0 ==> change == [] && h.nodes == nodes0 && h.ground == ground0
      invariant forall i | 0 <= i < |change| && change[i].count > 0 :: Unit(change[i].id) < broken
    {
      var uid := moneyMap[k];
      NextCoin(items0, h.items, uids, moneyMap, k);
      var coin := h.items[uid];
      var worth := Worth(coin);
      ghost var before := h.items;
      if worth < rest {
        h.RemoveItem(uid, coin.count);
        rest := rest - worth;
      } else if worth > rest {
        broken, change := Break(h, uid, rest, fits);
        done := true;
      } else {
        h.RemoveItem(uid, coin.count);
        done := true;
      }
      SpentNext(items0, before, h.items, uids, moneyMap, k);
      k := k + 1;
    }
    SumNone(items0, moneyMap, k);
    SpentIsCheapest(items0, h.items, uids, moneyMap, k);
    paid := true;
  }

  lemma {:induction false} HeldIs(h: Holder)
    requires h.Valid()
    ensures h.Held() == Sum(h.items, Leaves(h.nodes)) && Distinct(Leaves(h.nodes))
    ensures forall u | u in Leaves(h.nodes) :: u < h.nextUid
  {}

  lemma {:induction false} SumNone(items: map<nat, Coin>, uids: seq<nat>, k: nat)
    requires k <= |uids|
    ensures k == |uids| ==> Sum(items, uids[k..]) == 0
  {}
}
