/** Items inside containers: parent pointers, contents, and the cached weight of everything inside. */
module Containment {
  import opened Wrappers

  // What an item type says about weight and moving; types are named by number.
  datatype ItemTypes = ItemTypes(weight: nat -> nat, stackable: nat -> bool, pickupable: nat -> bool)

  class Item {
    const isContainer: bool
    const isInbox: bool
    const maxSize: nat
    const unlocked: bool
    const weightAttribute: Option<nat>
    var id: nat
    var count: nat
    var parent: Item?
    var itemlist: seq<Item>
    var totalWeight: int

    // A stack weighs as many units as it counts, at least one; a weight of the item's own goes before its type's.
    function UnitsWeight(types: ItemTypes, id: nat, count: nat): nat {
      (if weightAttribute.Some? then weightAttribute.value else types.weight(id))
      * if types.stackable(id) && count > 1 then count else 1
    }

    function OwnWeight(types: ItemTypes): nat
      reads this`id, this`count
    {
      UnitsWeight(types, id, count)
    }

    function Weight(types: ItemTypes): int
      reads this
    {
      OwnWeight(types) + totalWeight
    }
  }

  // ---------------------------------------------------------------- what is kept

  // A set of items as a value: who lies in whom, in what order, and what each weighs by itself. A null
  // parent stands for the ground, a player's slot, or nothing.
  type Parents = map<Item, Item?>
  datatype Shape = Shape(parent: Parents, list: map<Item, seq<Item>>, own: map<Item, int>)

  ghost predicate Distinct(s: seq<Item>) {
    forall i, j | 0 <= i < j < |s| :: s[i] != s[j]
  }

  // Lists and parent pointers agree, no item is listed twice, and only containers hold anything.
  ghost predicate Linked(sh: Shape) {
    && sh.parent.Keys == sh.list.Keys == sh.own.Keys
    && (forall o | o in sh.parent :: Listed(sh, o))
    && (forall o | o in sh.list :: ListFits(sh, o))
  }

  ghost predicate Listed(sh: Shape, o: Item)
    requires o in sh.parent
  {
    sh.parent[o] != null ==> sh.parent[o] in sh.list && o in sh.list[sh.parent[o]]
  }

  ghost predicate ListFits(sh: Shape, o: Item)
    requires o in sh.list
  {
    && Distinct(sh.list[o])
    && (sh.list[o] != [] ==> o.isContainer)
    && (forall c | c in sh.list[o] :: c in sh.parent && sh.parent[c] == o)
  }

  // Climbing from x reaches a root in at most n steps.
  ghost predicate Climbs(par: Parents, x: Item?, n: nat) {
    x == null || (n > 0 && x in par && Climbs(par, par[x], n - 1))
  }

  ghost predicate Rooted(par: Parents, x: Item?) {
    exists n: nat :: Climbs(par, x, n)
  }

  ghost predicate Acyclic(par: Parents) {
    forall o | o in par :: Rooted(par, o)
  }

  ghost function SumOf(w: map<Item, int>, s: seq<Item>): int
    requires forall c | c in s :: c in w
  {
    if s == [] then 0 else w[s[0]] + SumOf(w, s[1..])
  }

  ghost function Weights(sh: Shape, total: map<Item, int>): map<Item, int>
    requires sh.own.Keys == total.Keys
  {
    map o | o in total :: sh.own[o] + total[o]
  }

  // The cached weight of o is off by `diff` from the summed weights of what it lists.
  ghost predicate OffBy(sh: Shape, total: map<Item, int>, o: Item, diff: int)
    requires Linked(sh) && total.Keys == sh.own.Keys && o in total
  {
    total[o] + diff == SumOf(Weights(sh, total), sh.list[o])
  }

  ghost predicate BalancedBut(sh: Shape, total: map<Item, int>, p: Item?, diff: int)
    requires Linked(sh) && total.Keys == sh.own.Keys && (p != null ==> p in total)
  {
    forall o | o in total :: OffBy(sh, total, o, if o == p then diff else 0)
  }

  ghost predicate SoundForest(sh: Shape, total: map<Item, int>) {
    Linked(sh) && Acyclic(sh.parent) && total.Keys == sh.own.Keys && BalancedBut(sh, total, null, 0)
  }

  ghost function ShapeOf(types: ItemTypes, world: set<Item>): Shape
    reads world
  {
    Shape(map o | o in world :: o.parent, map o | o in world :: o.itemlist,
          map o | o in world :: o.OwnWeight(types) as int)
  }

  ghost function TotalsOf(world: set<Item>): map<Item, int>
    reads world
  {
    map o | o in world :: o.totalWeight
  }

  // What every operation keeps, at every depth.
  ghost predicate Sound(types: ItemTypes, world: set<Item>)
    reads world
  {
    SoundForest(ShapeOf(types, world), TotalsOf(world))
  }

  // ---------------------------------------------------------------- sums

  lemma {:induction false} SumSame(w: map<Item, int>, w': map<Item, int>, s: seq<Item>)
    requires forall c | c in s :: c in w && c in w' && w[c] == w'[c]
    ensures SumOf(w, s) == SumOf(w', s)
  {
    if s != [] {
      SumSame(w, w', s[1..]);
    }
  }

  // When one item's weight changes, the sum over a list that holds it once changes by as much.
  lemma {:induction false} SumChange(w: map<Item, int>, w': map<Item, int>, s: seq<Item>, p: Item)
    requires forall c | c in s :: c in w && c in w' && (c != p ==> w[c] == w'[c])
    requires Distinct(s)
    ensures SumOf(w', s) == SumOf(w, s) + if p in s then w'[p] - w[p] else 0
  {
    if s != [] {
      if s[0] == p {
        assert forall c | c in s[1..] :: c != p;
        SumSame(w, w', s[1..]);
      } else {
        SumChange(w, w', s[1..], p);
      }
    }
  }

  lemma {:induction false} SumConcat(w: map<Item, int>, a: seq<Item>, b: seq<Item>)
    requires forall c | c in a :: c in w
    requires forall c | c in b :: c in w
    ensures SumOf(w, a + b) == SumOf(w, a) + SumOf(w, b)
  {
    if a == [] {
      assert a + b == b;
    } else {
      assert (a + b)[1..] == a[1..] + b;
      SumConcat(w, a[1..], b);
    }
  }

  // ---------------------------------------------------------------- climbing

  // y is met when climbing k steps from x, x itself being step 0.
  ghost predicate Meets(par: Parents, x: Item?, y: Item, k: nat) {
    x != null && if k == 0 then x == y else x in par && Meets(par, par[x], y, k - 1)
  }

  ghost predicate HoldsOrIs(par: Parents, y: Item, x: Item?) {
    exists k: nat :: Meets(par, x, y, k)
  }

  lemma {:induction false} ClimbsMore(par: Parents, x: Item?, n: nat, m: nat)
    requires Climbs(par, x, n) && n <= m
    ensures Climbs(par, x, m)
  {
    if x != null {
      ClimbsMore(par, par[x], n - 1, m - 1);
    }
  }

  // Climbing that never meets `item` does not notice a new parent of `item`.
  lemma {:induction false} ClimbsAside(par: Parents, x: Item?, n: nat, item: Item, c: Item?)
    requires Climbs(par, x, n) && !HoldsOrIs(par, item, x)
    ensures Climbs(par[item := c], x, n)
  {
    if x != null {
      assert !Meets(par, x, item, 0);
      forall k: nat ensures !Meets(par, par[x], item, k) {
        assert !Meets(par, x, item, k + 1);
      }
      ClimbsAside(par, par[x], n - 1, item, c);
    }
  }

  // Putting a root under a container it does not hold keeps every climb finite.
  lemma {:induction false} ClimbsAttached(par: Parents, x: Item?, n: nat, item: Item, c: Item, m: nat)
    requires Climbs(par, x, n) && Climbs(par, c, m) && !HoldsOrIs(par, item, c)
    ensures Climbs(par[item := c], x, n + m + 1)
  {
    if x == item {
      ClimbsAside(par, c, m, item, c);
      ClimbsMore(par[item := c], c, m, n + m);
    } else if x != null {
      ClimbsAttached(par, par[x], n - 1, item, c, m);
    }
  }

  // Cutting an item loose keeps every climb finite.
  lemma {:induction false} ClimbsDetached(par: Parents, x: Item?, n: nat, item: Item)
    requires Climbs(par, x, n)
    ensures Climbs(par[item := null], x, n)
  {
    if x != null && x != item {
      ClimbsDetached(par, par[x], n - 1, item);
    }
  }

  lemma {:induction false} ClimbsFrom(par: Parents, x: Item?, y: Item, n: nat, k: nat)
    requires Climbs(par, x, n) && Meets(par, x, y, k)
    ensures k < n && Climbs(par, y, n - k)
  {
    if k > 0 {
      ClimbsFrom(par, par[x], y, n - 1, k - 1);
    }
  }

  lemma {:induction false} NeverAboveItself(par: Parents, x: Item, n: nat, k: nat)
    requires Climbs(par, x, n) && Meets(par, x, x, k)
    ensures k == 0
    decreases n
  {
    if k > 0 {
      ClimbsFrom(par, x, x, n, k);
      NeverAboveItself(par, x, n - k, k);
    }
  }

  lemma {:induction false} NotOwnParent(par: Parents, p: Item)
    requires Acyclic(par) && p in par
    ensures par[p] != p
  {
    if par[p] == p {
      assert Rooted(par, p);
      var n: nat :| Climbs(par, p, n);
      assert Meets(par, p, p, 0);
      assert Meets(par, p, p, 1);
      NeverAboveItself(par, p, n, 1);
    }
  }

  lemma {:induction false} AttachedAcyclic(par: Parents, item: Item, c: Item)
    requires Acyclic(par) && item in par && c in par && !HoldsOrIs(par, item, c)
    ensures Acyclic(par[item := c])
  {
    assert Rooted(par, c);
    var m: nat :| Climbs(par, c, m);
    forall o | o in par ensures Rooted(par[item := c], o) {
      assert Rooted(par, o);
      var n: nat :| Climbs(par, o, n);
      ClimbsAttached(par, o, n, item, c, m);
    }
  }

  lemma {:induction false} DetachedAcyclic(par: Parents, item: Item)
    requires Acyclic(par) && item in par
    ensures Acyclic(par[item := null])
  {
    forall o | o in par ensures Rooted(par[item := null], o) {
      assert Rooted(par, o);
      var n: nat :| Climbs(par, o, n);
      ClimbsDetached(par, o, n, item);
    }
  }

  // ---------------------------------------------------------------- the cached weight

  lemma {:induction false} ListedBy(sh: Shape, p: Item, o: Item)
    requires Linked(sh) && p in sh.parent && o in sh.list
    ensures p in sh.list[o] <==> o == sh.parent[p]
    ensures Distinct(sh.list[o])
    ensures forall x | x in sh.list[o] :: x in sh.own
    ensures sh.parent[p] != null ==> sh.parent[p] in sh.own
  {}

  // What one list sums to is as before unless it lists p.
  lemma {:induction false} MendAt(sh: Shape, total: map<Item, int>, p: Item, diff: int, o: Item)
    requires Linked(sh) && total.Keys == sh.own.Keys && p in total && o in total && p !in sh.list[p]
    requires OffBy(sh, total, o, if o == p then diff else 0)
    ensures OffBy(sh, total[p := total[p] + diff], o, if o == sh.parent[p] then diff else 0)
  {
    ListedBy(sh, p, o);
    hide Linked, SumOf, Distinct;
    var total' := total[p := total[p] + diff];
    SumChange(Weights(sh, total), Weights(sh, total'), sh.list[o], p);
  }

  // Mending one container's cached weight moves the difference to the container around it.
  lemma {:induction false} MendOne(sh: Shape, total: map<Item, int>, p: Item, diff: int)
    requires Linked(sh) && Acyclic(sh.parent) && total.Keys == sh.own.Keys && p in total
    requires BalancedBut(sh, total, p, diff)
    ensures sh.parent[p] != null ==> sh.parent[p] in total
    ensures BalancedBut(sh, total[p := total[p] + diff], sh.parent[p], diff)
  {
    ListedBy(sh, p, p);
    NotOwnParent(sh.parent, p);
    hide Linked, Acyclic, OffBy;
    forall o | o in total
      ensures OffBy(sh, total[p := total[p] + diff], o, if o == sh.parent[p] then diff else 0)
    {
      assert OffBy(sh, total, o, if o == p then diff else 0);
      MendAt(sh, total, p, diff, o);
    }
  }

  method SetTotal(types: ItemTypes, container: Item, totalWeight: int, ghost world: set<Item>)
    requires container in world
    modifies container`totalWeight
    ensures ShapeOf(types, world) == old(ShapeOf(types, world))
    ensures TotalsOf(world) == old(TotalsOf(world)[container := totalWeight])
  {
    hide Item.UnitsWeight, Item.OwnWeight;
    container.totalWeight := totalWeight;
  }

  lemma {:induction false} ClimbOne(par: Parents, x: Item, n: nat)
    requires Climbs(par, x, n)
    ensures n > 0 && x in par && Climbs(par, par[x], n - 1)
  {}

  // Adds a difference to a container's cached weight and to that of every container around it;
  // `height` bounds how many there are.
  method UpdateItemWeight(types: ItemTypes, container: Item, diff: int, ghost world: set<Item>, ghost height: nat)
    requires container in world && Linked(ShapeOf(types, world)) && Acyclic(ShapeOf(types, world).parent)
    requires BalancedBut(ShapeOf(types, world), TotalsOf(world), container, diff)
    requires Climbs(ShapeOf(types, world).parent, container, height)
    modifies world
    ensures Sound(types, world)
    ensures ShapeOf(types, world) == old(ShapeOf(types, world))
    ensures forall o | o in world :: o.id == old(o.id) && o.count == old(o.count)
    decreases height
  {
    hide Linked, Acyclic, BalancedBut, Climbs, Item.UnitsWeight;
    ghost var sh, total := ShapeOf(types, world), TotalsOf(world);
    SetTotal(types, container, container.totalWeight + diff, world);
    MendOne(sh, total, container, diff);
    ClimbOne(sh.parent, container, height);
    if container.parent == null {
      NothingOff(sh, TotalsOf(world), diff);
    } else {
      UpdateItemWeight(types, container.parent, diff, world, height - 1);
    }
  }

  lemma {:induction false} NothingOff(sh: Shape, total: map<Item, int>, diff: int)
    requires Linked(sh) && total.Keys == sh.own.Keys && BalancedBut(sh, total, null, diff)
    ensures BalancedBut(sh, total, null, 0)
  {}

  // ---------------------------------------------------------------- changing one list

  ghost function Inserted(sh: Shape, c: Item, i: nat, item: Item): Shape
    requires c in sh.list && i <= |sh.list[c]|
  {
    var s := sh.list[c];
    Shape(sh.parent[item := c], sh.list[c := s[..i] + [item] + s[i..]], sh.own)
  }

  ghost function Removed(sh: Shape, c: Item, i: nat): Shape
    requires c in sh.list && i < |sh.list[c]|
  {
    var s := sh.list[c];
    Shape(sh.parent[s[i] := null], sh.list[c := s[..i] + s[i + 1..]], sh.own)
  }

  lemma {:induction false} InsertedMembers(s: seq<Item>, i: nat, item: Item)
    requires Distinct(s) && i <= |s| && item !in s
    ensures Distinct(s[..i] + [item] + s[i..])
    ensures forall x :: x in s[..i] + [item] + s[i..] <==> x == item || x in s
  {
    assert s == s[..i] + s[i..];
  }

  lemma {:induction false} RemovedMembers(s: seq<Item>, i: nat)
    requires Distinct(s) && i < |s|
    ensures Distinct(s[..i] + s[i + 1..])
    ensures forall x :: x in s[..i] + s[i + 1..] <==> x in s && x != s[i]
  {
    assert s == s[..i] + [s[i]] + s[i + 1..];
  }

  lemma {:induction false} InsertedLinked(sh: Shape, c: Item, i: nat, item: Item)
    requires Linked(sh) && c in sh.list && c.isContainer && i <= |sh.list[c]|
    requires item in sh.parent && sh.parent[item] == null
    ensures Linked(Inserted(sh, c, i, item))
  {
    ListedBy(sh, item, c);
    hide Distinct;
    var sh' := Inserted(sh, c, i, item);
    assert ListFits(sh, c);
    InsertedMembers(sh.list[c], i, item);
    forall o | o in sh'.parent ensures Listed(sh', o) {
      assert Listed(sh, o);
    }
    forall o | o in sh'.list ensures ListFits(sh', o) {
      assert ListFits(sh, o);
      ListedBy(sh, item, o);
    }
  }

  lemma {:induction false} RemovedFits(sh: Shape, c: Item, i: nat, o: Item)
    requires Linked(sh) && c in sh.list && i < |sh.list[c]| && o in sh.list
    ensures ListFits(Removed(sh, c, i), o)
  {
    assert ListFits(sh, c) && sh.list[c][i] in sh.list[c];
    assert ListFits(sh, o);
    hide Linked, Distinct;
    RemovedMembers(sh.list[c], i);
  }

  lemma {:induction false} RemovedListed(sh: Shape, c: Item, i: nat, o: Item)
    requires Linked(sh) && c in sh.list && i < |sh.list[c]| && o in sh.parent
    ensures Listed(Removed(sh, c, i), o)
  {
    assert ListFits(sh, c) && sh.list[c][i] in sh.list[c];
    assert Listed(sh, o);
    hide Linked, Distinct;
    RemovedMembers(sh.list[c], i);
  }

  lemma {:induction false} RemovedLinked(sh: Shape, c: Item, i: nat)
    requires Linked(sh) && c in sh.list && i < |sh.list[c]|
    ensures Linked(Removed(sh, c, i))
  {
    var sh' := Removed(sh, c, i);
    assert sh'.parent.Keys == sh'.list.Keys == sh'.own.Keys by {
      assert ListFits(sh, c) && sh.list[c][i] in sh.list[c];
    }
    hide Listed, ListFits;
    forall o | o in sh'.parent ensures Listed(sh', o) {
      RemovedListed(sh, c, i, o);
    }
    forall o | o in sh'.list ensures ListFits(sh', o) {
      RemovedFits(sh, c, i, o);
    }
  }

  lemma {:induction false} ListedKnown(sh: Shape, o: Item)
    requires Linked(sh) && o in sh.list
    ensures forall x | x in sh.list[o] :: x in sh.own
  {}

  // What was off by `diff` before the insertion is off by the item's weight more after it.
  lemma {:induction false} InsertedOff(sh: Shape, total: map<Item, int>, c: Item, i: nat, item: Item, diff: int)
    requires Linked(sh) && total.Keys == sh.own.Keys && c in total && BalancedBut(sh, total, c, diff)
    requires i <= |sh.list[c]| && item in total && Linked(Inserted(sh, c, i, item))
    ensures BalancedBut(Inserted(sh, c, i, item), total, c, diff + sh.own[item] + total[item])
  {
    ListedKnown(sh, c);
    hide Linked, SumOf;
    var sh', s, w := Inserted(sh, c, i, item), sh.list[c], Weights(sh, total);
    InsertedSum(w, s, i, item);
    forall o | o in total ensures OffBy(sh', total, o, if o == c then diff + sh.own[item] + total[item] else 0) {
      assert OffBy(sh, total, o, if o == c then diff else 0);
      assert Weights(sh', total) == w;
    }
  }

  lemma {:induction false} InsertedSum(w: map<Item, int>, s: seq<Item>, i: nat, item: Item)
    requires i <= |s| && item in w && forall x | x in s :: x in w
    ensures forall x | x in s[..i] + [item] + s[i..] :: x in w
    ensures SumOf(w, s[..i] + [item] + s[i..]) == SumOf(w, s) + w[item]
  {
    assert s == s[..i] + s[i..];
    SumConcat(w, s[..i], s[i..]);
    SumConcat(w, s[..i], [item]);
    SumConcat(w, s[..i] + [item], s[i..]);
  }

  lemma {:induction false} RemovedSum(w: map<Item, int>, s: seq<Item>, i: nat)
    requires i < |s| && forall x | x in s :: x in w
    ensures forall x | x in s[..i] + s[i + 1..] :: x in w
    ensures SumOf(w, s[..i] + s[i + 1..]) == SumOf(w, s) - w[s[i]]
  {
    hide SumOf;
    var t := s[..i] + s[i + 1..];
    assert s == t[..i] + [s[i]] + t[i..];
    assert forall x | x in t :: x in s;
    InsertedSum(w, t, i, s[i]);
  }

  lemma {:induction false} RemovedOffAt(
    sh: Shape, total: map<Item, int>, c: Item, i: nat, diff: int, weight: int, o: Item)
    requires Linked(sh) && total.Keys == sh.own.Keys && c in total && o in total
    requires i < |sh.list[c]| && sh.list[c][i] in total && Linked(Removed(sh, c, i))
    requires weight == sh.own[sh.list[c][i]] + total[sh.list[c][i]]
    requires OffBy(sh, total, o, if o == c then diff else 0)
    ensures OffBy(Removed(sh, c, i), total, o, if o == c then diff - weight else 0)
  {
    ListedKnown(sh, c);
    hide Linked, SumOf;
    assert Weights(Removed(sh, c, i), total) == Weights(sh, total);
    if o == c {
      RemovedSum(Weights(sh, total), sh.list[c], i);
    }
  }

  lemma {:induction false} RemovedOff(sh: Shape, total: map<Item, int>, c: Item, i: nat, diff: int)
    requires Linked(sh) && total.Keys == sh.own.Keys && c in total && BalancedBut(sh, total, c, diff)
    requires i < |sh.list[c]| && sh.list[c][i] in total && Linked(Removed(sh, c, i))
    ensures BalancedBut(Removed(sh, c, i), total, c, diff - sh.own[sh.list[c][i]] - total[sh.list[c][i]])
  {
    ListedKnown(sh, c);
    hide Linked, OffBy;
    var weight := sh.own[sh.list[c][i]] + total[sh.list[c][i]];
    forall o | o in total ensures OffBy(Removed(sh, c, i), total, o, if o == c then diff - weight else 0) {
      assert OffBy(sh, total, o, if o == c then diff else 0);
      RemovedOffAt(sh, total, c, i, diff, weight, o);
    }
  }

  lemma {:induction false} ReweighedOff(sh: Shape, total: map<Item, int>, item: Item, weight: int)
    requires Linked(sh) && Acyclic(sh.parent) && total.Keys == sh.own.Keys && item in total
    requires BalancedBut(sh, total, null, 0)
    ensures Linked(sh.(own := sh.own[item := weight]))
    ensures sh.parent[item] != null ==> sh.parent[item] in total
    ensures BalancedBut(sh.(own := sh.own[item := weight]), total, sh.parent[item], weight - sh.own[item])
  {
    hide SumOf, Acyclic, Distinct;
    ListedBy(sh, item, item);
    var sh' := sh.(own := sh.own[item := weight]);
    assert Linked(sh');
    var w, w' := Weights(sh, total), Weights(sh', total);
    forall o | o in total ensures OffBy(sh', total, o, if o == sh.parent[item] then weight - sh.own[item] else 0) {
      assert OffBy(sh, total, o, 0);
      ListedBy(sh, item, o);
      SumChange(w, w', sh.list[o], item);
    }
  }

  // ---------------------------------------------------------------- the container's operations

  datatype ReturnValue =
    | NoError | NotPossible | CannotPickup | ThisIsImpossible | ContainerNotEnoughRoom | NotEnoughCapacity

  const INDEX_WHEREEVER := -1

  lemma {:induction false} HoldsStep(par: Parents, y: Item, x: Item)
    requires x in par
    ensures HoldsOrIs(par, y, x) <==> x == y || HoldsOrIs(par, y, par[x])
  {
    if HoldsOrIs(par, y, x) {
      var k: nat :| Meets(par, x, y, k);
      assert k > 0 ==> Meets(par, par[x], y, k - 1);
    }
    if x == y {
      assert Meets(par, x, y, 0);
    }
    if HoldsOrIs(par, y, par[x]) {
      var k: nat :| Meets(par, par[x], y, k);
      assert Meets(par, x, y, k + 1);
    }
  }

  lemma {:induction false} HoldsNone(par: Parents, y: Item)
    ensures !HoldsOrIs(par, y, null)
  {}

  // Some inbox lies around, or is, x.
  ghost predicate InInbox(par: Parents, x: Item?) {
    exists y | y in par :: y.isInbox && HoldsOrIs(par, y, x)
  }

  lemma {:induction false} InboxStep(par: Parents, x: Item)
    requires x in par
    ensures InInbox(par, x) <==> x.isInbox || InInbox(par, par[x])
  {
    forall y | y in par ensures HoldsOrIs(par, y, x) <==> x == y || HoldsOrIs(par, y, par[x]) {
      HoldsStep(par, y, x);
    }
  }

  // Whether `item` may be added to `container`; `carrier` is what the creature that carries it answers.
  method QueryAdd(types: ItemTypes, container: Item, index: int, item: Item, noLimit: bool, childIsOwner: bool,
                  carrier: ReturnValue, ghost world: set<Item>) returns (r: ReturnValue)
    requires container in world && Sound(types, world)
    ensures r == NoError <==>
      childIsOwner ||
      (&& container.unlocked && types.pickupable(item.id) && carrier == NoError
       && !HoldsOrIs(ShapeOf(types, world).parent, item, container)
       && (!noLimit ==> !InInbox(ShapeOf(types, world).parent, container.parent))
       && (!noLimit && index == INDEX_WHEREEVER ==> |container.itemlist| < container.maxSize))
  {
    hide SoundForest, HoldsOrIs, InInbox;
    if childIsOwner {
      return NoError;
    }
    if !container.unlocked {
      return NotPossible;
    }
    if !types.pickupable(item.id) {
      return CannotPickup;
    }
    ghost var par := ShapeOf(types, world).parent;
    HoldsStep(par, item, container);
    if item == container {
      return ThisIsImpossible;
    }
    var cylinder := container.parent;
    ghost var height: nat := HeightOf(types, world, container);
    ClimbOne(par, container, height);
    height := height - 1;
    while cylinder != null
      invariant cylinder != null ==> cylinder in world
      invariant Climbs(par, cylinder, height)
      invariant HoldsOrIs(par, item, cylinder) <==> HoldsOrIs(par, item, container.parent)
      invariant !noLimit ==> (InInbox(par, cylinder) <==> InInbox(par, container.parent))
      decreases height
    {
      HoldsStep(par, item, cylinder);
      InboxStep(par, cylinder);
      if cylinder == item {
        return ThisIsImpossible;
      }
      if !noLimit && cylinder.isInbox {
        return ContainerNotEnoughRoom;
      }
      ClimbOne(par, cylinder, height);
      height := height - 1;
      ParentInWorld(types, world, cylinder);
      cylinder := cylinder.parent;
    }
    HoldsNone(par, item);
    NoInboxAboveNull(par);
    if !noLimit && index == INDEX_WHEREEVER && |container.itemlist| >= container.maxSize {
      return ContainerNotEnoughRoom;
    }
    return carrier;
  }

  lemma {:induction false} NoInboxAboveNull(par: Parents)
    ensures !InInbox(par, null)
  {}

  lemma {:induction false} HeightOf(types: ItemTypes, world: set<Item>, x: Item) returns (n: nat)
    requires x in world && Sound(types, world)
    ensures Climbs(ShapeOf(types, world).parent, x, n)
    ensures x.parent != null ==> x.parent in world
  {
    assert Rooted(ShapeOf(types, world).parent, x);
    n :| Climbs(ShapeOf(types, world).parent, x, n);
    ParentInWorld(types, world, x);
  }

  lemma {:induction false} ParentInWorld(types: ItemTypes, world: set<Item>, x: Item)
    requires x in world && Sound(types, world)
    ensures x.parent != null ==> x.parent in world
  {
    var sh := ShapeOf(types, world);
    assert sh.parent[x] == x.parent;
    assert x.parent != null ==> x.parent in sh.list;
  }

  // A root item, not holding the container, may be put at place i of its list.
  lemma {:induction false} InsertedForest(sh: Shape, total: map<Item, int>, c: Item, i: nat, item: Item, diff: int)
    requires Linked(sh) && Acyclic(sh.parent) && total.Keys == sh.own.Keys
    requires c in total && BalancedBut(sh, total, c, diff)
    requires c.isContainer && i <= |sh.list[c]| && item in total
    requires sh.parent[item] == null && !HoldsOrIs(sh.parent, item, c)
    ensures var sh' := Inserted(sh, c, i, item);
            Linked(sh') && Acyclic(sh'.parent) && BalancedBut(sh', total, c, diff + sh.own[item] + total[item])
  {
    InsertedLinked(sh, c, i, item);
    InsertedOff(sh, total, c, i, item, diff);
    AttachedAcyclic(sh.parent, item, c);
  }

  lemma {:induction false} RemovedForest(sh: Shape, total: map<Item, int>, c: Item, i: nat, diff: int)
    requires Linked(sh) && Acyclic(sh.parent) && total.Keys == sh.own.Keys
    requires c in total && BalancedBut(sh, total, c, diff)
    requires i < |sh.list[c]|
    ensures sh.list[c][i] in total
    ensures var sh', x := Removed(sh, c, i), sh.list[c][i];
            Linked(sh') && Acyclic(sh'.parent) && BalancedBut(sh', total, c, diff - sh.own[x] - total[x])
  {
    assert ListFits(sh, c) && sh.list[c][i] in sh.list[c];
    assert c in sh.list && sh.list[c][i] in sh.parent && sh.list[c][i] in total;
    hide Linked, Acyclic, BalancedBut, ListFits, Distinct;
    RemovedLinked(sh, c, i);
    RemovedOff(sh, total, c, i, diff);
    DetachedAcyclic(sh.parent, sh.list[c][i]);
  }

  // A sound forest has a climb for every container and nothing off anywhere.
  lemma {:induction false} SoundAt(types: ItemTypes, world: set<Item>, c: Item) returns (height: nat)
    requires c in world && Sound(types, world)
    ensures var sh := ShapeOf(types, world);
            Linked(sh) && Acyclic(sh.parent) && BalancedBut(sh, TotalsOf(world), c, 0) && Climbs(sh.parent, c, height)
  {
    height := HeightOf(types, world, c);
  }

  // Adding at the front; an index beyond the capacity is ignored.
  method AddThing(types: ItemTypes, container: Item, index: int, item: Item, ghost world: set<Item>)
    requires Sound(types, world) && container in world && item in world
    requires container.isContainer && item.parent == null && !HoldsOrIs(ShapeOf(types, world).parent, item, container)
    modifies world
    ensures Sound(types, world)
    ensures ShapeOf(types, world) == if index >= container.maxSize then old(ShapeOf(types, world))
                                     else old(Inserted(ShapeOf(types, world), container, 0, item))
  {
    if index >= container.maxSize {
      return;
    }
    InsertAt(types, container, 0, item, world);
  }

  // Adding at the back.
  method AddItemBack(types: ItemTypes, container: Item, item: Item, ghost world: set<Item>)
    requires Sound(types, world) && container in world && item in world
    requires container.isContainer && item.parent == null && !HoldsOrIs(ShapeOf(types, world).parent, item, container)
    modifies world
    ensures Sound(types, world)
    ensures ShapeOf(types, world) == old(Inserted(ShapeOf(types, world), container, |container.itemlist|, item))
  {
    InsertAt(types, container, |container.itemlist|, item, world);
  }

  // item->setParent, seen as a change of the forest.
  method SetParent(types: ItemTypes, item: Item, parent: Item?, ghost world: set<Item>)
    requires item in world
    modifies item`parent
    ensures ShapeOf(types, world) == old(ShapeOf(types, world).(parent := ShapeOf(types, world).parent[item := parent]))
    ensures TotalsOf(world) == old(TotalsOf(world))
  {
    hide Item.UnitsWeight, Item.OwnWeight;
    ghost var sh := ShapeOf(types, world);
    item.parent := parent;
    ghost var sh' := ShapeOf(types, world);
    assert sh'.parent == sh.parent[item := parent];
    assert sh'.own == sh.own && sh'.list == sh.list;
  }

  method SetList(types: ItemTypes, container: Item, itemlist: seq<Item>, ghost world: set<Item>)
    requires container in world
    modifies container`itemlist
    ensures ShapeOf(types, world) ==
      old(ShapeOf(types, world).(list := ShapeOf(types, world).list[container := itemlist]))
    ensures TotalsOf(world) == old(TotalsOf(world))
  {
    hide Item.UnitsWeight, Item.OwnWeight;
    ghost var sh := ShapeOf(types, world);
    container.itemlist := itemlist;
    ghost var sh' := ShapeOf(types, world);
    assert sh'.list == sh.list[container := itemlist];
    assert sh'.own == sh.own && sh'.parent == sh.parent;
  }

  method InsertAt(types: ItemTypes, container: Item, i: nat, item: Item, ghost world: set<Item>)
    requires Sound(types, world) && container in world && item in world && i <= |container.itemlist|
    requires container.isContainer && item.parent == null && !HoldsOrIs(ShapeOf(types, world).parent, item, container)
    modifies world
    ensures Sound(types, world)
    ensures ShapeOf(types, world) == old(Inserted(ShapeOf(types, world), container, i, item))
  {
    hide Linked, Acyclic, BalancedBut, Climbs, Item.UnitsWeight, HoldsOrIs, SoundForest;
    ghost var sh, total := ShapeOf(types, world), TotalsOf(world);
    ghost var height := SoundAt(types, world, container);
    InsertedForest(sh, total, container, i, item, 0);
    InsertedClimb(sh.parent, container, height, item);
    SetParent(types, item, container, world);
    SetList(types, container, container.itemlist[..i] + [item] + container.itemlist[i..], world);
    WeightAt(types, world, item);
    UpdateItemWeight(types, container, item.Weight(types), world, height);
  }

  lemma {:induction false} WeightAt(types: ItemTypes, world: set<Item>, item: Item)
    requires item in world
    ensures item.Weight(types) == ShapeOf(types, world).own[item] + TotalsOf(world)[item]
  {}

  lemma {:induction false} InsertedClimb(par: Parents, c: Item, height: nat, item: Item)
    requires Climbs(par, c, height) && !HoldsOrIs(par, item, c)
    ensures Climbs(par[item := c], c, height)
  {
    ClimbsAside(par, c, height, item, c);
  }

  // The place of an item in a container's list, or -1.
  method GetThingIndex(container: Item, item: Item) returns (index: int)
    ensures index == -1 <==> item !in container.itemlist
    ensures index != -1 ==> 0 <= index < |container.itemlist| && container.itemlist[index] == item
  {
    index := 0;
    while index < |container.itemlist|
      invariant 0 <= index <= |container.itemlist| && item !in container.itemlist[..index]
    {
      if container.itemlist[index] == item {
        return;
      }
      index := index + 1;
    }
    return -1;
  }

  // A new type and count, seen as a change of the forest.
  method SetUnits(types: ItemTypes, item: Item, id: nat, count: nat, ghost world: set<Item>)
    requires item in world
    modifies item`id, item`count
    ensures ShapeOf(types, world) ==
      old(ShapeOf(types, world).(own := ShapeOf(types, world).own[item := item.UnitsWeight(types, id, count)]))
    ensures TotalsOf(world) == old(TotalsOf(world))
    ensures item.id == id && item.count == count
  {
    hide Item.UnitsWeight;
    ghost var sh := ShapeOf(types, world);
    item.id := id;
    item.count := count;
    assert item.OwnWeight(types) == item.UnitsWeight(types, id, count);
    hide Item.OwnWeight;
    ghost var sh' := ShapeOf(types, world);
    assert sh'.own == sh.own[item := item.UnitsWeight(types, id, count)];
    assert sh'.list == sh.list && sh'.parent == sh.parent;
  }

  // The shape after a listed item's type and count become `id` and `count`.
  ghost function Reweighed(types: ItemTypes, sh: Shape, item: Item, id: nat, count: nat): Shape {
    sh.(own := sh.own[item := item.UnitsWeight(types, id, count)])
  }

  // Changes a listed item's type and count; an item that is not listed is left alone.
  method UpdateThing(types: ItemTypes, container: Item, item: Item, id: nat, count: nat, ghost world: set<Item>)
    requires Sound(types, world) && container in world && item in world
    modifies world
    ensures Sound(types, world)
    ensures if item in old(container.itemlist)
            then item.id == id && item.count == count
                 && ShapeOf(types, world) == Reweighed(types, old(ShapeOf(types, world)), item, id, count)
            else item.id == old(item.id) && item.count == old(item.count)
                 && ShapeOf(types, world) == old(ShapeOf(types, world))
    ensures forall o | o in world && o != item :: o.id == old(o.id) && o.count == old(o.count)
  {
    hide Sound, ShapeOf;
    var index := GetThingIndex(container, item);
    if index == -1 {
      return;
    }
    Reweigh(types, container, item, id, count, world);
  }

  method Reweigh(types: ItemTypes, container: Item, item: Item, id: nat, count: nat, ghost world: set<Item>)
    requires Sound(types, world) && container in world && item in world && item in container.itemlist
    modifies world
    ensures Sound(types, world)
    ensures item.id == id && item.count == count
    ensures ShapeOf(types, world) == Reweighed(types, old(ShapeOf(types, world)), item, id, count)
    ensures forall o | o in world && o != item :: o.id == old(o.id) && o.count == old(o.count)
  {
    hide Linked, Acyclic, BalancedBut, Climbs, Item.UnitsWeight, SoundForest;
    ghost var sh, total := ShapeOf(types, world), TotalsOf(world);
    ghost var height := SoundAt(types, world, container);
    ListedIn(types, world, container, item);
    SoundReweighed(types, world, item, item.UnitsWeight(types, id, count));
    var oldWeight := item.Weight(types);
    WeightAt(types, world, item);
    SetUnits(types, item, id, count, world);
    WeightAt(types, world, item);
    UpdateItemWeight(types, container, -oldWeight + item.Weight(types), world, height);
  }

  lemma {:induction false} ListedIn(types: ItemTypes, world: set<Item>, container: Item, item: Item)
    requires container in world && Sound(types, world) && item in container.itemlist
    ensures item in world && item.parent == container
  {
    var sh := ShapeOf(types, world);
    assert ListFits(sh, container);
  }

  lemma {:induction false} SoundReweighed(types: ItemTypes, world: set<Item>, item: Item, weight: int)
    requires item in world && Sound(types, world)
    ensures var sh, total := ShapeOf(types, world), TotalsOf(world);
            var sh' := sh.(own := sh.own[item := weight]);
            && Linked(sh') && Acyclic(sh'.parent)
            && (item.parent != null ==>
              item.parent in world && BalancedBut(sh', total, item.parent, weight - sh.own[item]))
  {
    ReweighedOff(ShapeOf(types, world), TotalsOf(world), item, weight);
  }

  // Takes `count` units off a stack that has another count, or the item itself out of the container.
  // (The list is shortened before the weights above it are adjusted, in either order with one result.)
  method RemoveThing(types: ItemTypes, container: Item, item: Item, count: nat, ghost world: set<Item>)
    requires Sound(types, world) && container in world && item in world
    modifies world
    ensures Sound(types, world)
    ensures item !in old(container.itemlist) ==> ShapeOf(types, world) == old(ShapeOf(types, world))
    ensures item in old(container.itemlist) ==>
      if types.stackable(old(item.id)) && count != old(item.count) then
        ShapeOf(types, world) ==
          Reweighed(types, old(ShapeOf(types, world)), item, old(item.id), Left(old(item.count), count))
        && item.count == Left(old(item.count), count)
      else
        exists i | 0 <= i < |old(container.itemlist)| && old(container.itemlist)[i] == item ::
          ShapeOf(types, world) == old(Removed(ShapeOf(types, world), container, i))
  {
    var index := GetThingIndex(container, item);
    if index == -1 {
      return;
    }
    if types.stackable(item.id) && count != item.count {
      UpdateThing(types, container, item, item.id, Left(item.count, count), world);
    } else {
      RemoveAt(types, container, index, world);
    }
  }

  function Left(have: nat, count: nat): nat {
    if count < have then have - count else 0
  }

  method RemoveAt(types: ItemTypes, container: Item, i: nat, ghost world: set<Item>)
    requires Sound(types, world) && container in world && i < |container.itemlist|
    modifies world
    ensures Sound(types, world)
    ensures ShapeOf(types, world) == old(Removed(ShapeOf(types, world), container, i))
  {
    hide Linked, Acyclic, BalancedBut, Climbs, Item.UnitsWeight, SoundForest;
    ghost var sh, total := ShapeOf(types, world), TotalsOf(world);
    ghost var height := SoundAt(types, world, container);
    var item := container.itemlist[i];
    RemovedForest(sh, total, container, i, 0);
    ClimbsDetached(sh.parent, container, height, item);
    WeightAt(types, world, item);
    var weight := item.Weight(types);
    SetParent(types, item, null, world);
    SetList(types, container, container.itemlist[..i] + container.itemlist[i + 1..], world);
    UpdateItemWeight(types, container, -weight, world, height);
  }

  // Puts a root item in the place of the one at `index`, which is left without a parent.
  method ReplaceThing(types: ItemTypes, container: Item, index: nat, item: Item, ghost world: set<Item>)
    requires Sound(types, world) && container in world && item in world
    requires item.parent == null && !HoldsOrIs(ShapeOf(types, world).parent, item, container)
    modifies world
    ensures Sound(types, world)
    ensures ShapeOf(types, world) ==
      if index >= |old(container.itemlist)| then old(ShapeOf(types, world))
      else old(Inserted(Removed(ShapeOf(types, world), container, index), container, index, item))
  {
    hide Sound, HoldsOrIs;
    if index >= |container.itemlist| {
      return;
    }
    CanReplace(types, world, container, index, item);
    RemoveAt(types, container, index, world);
    FieldsAt(types, world, container);
    FieldsAt(types, world, item);
    InsertAt(types, container, index, item, world);
  }

  lemma {:induction false} FieldsAt(types: ItemTypes, world: set<Item>, o: Item)
    requires o in world
    ensures ShapeOf(types, world).parent[o] == o.parent && ShapeOf(types, world).list[o] == o.itemlist
  {}

  // Taking something out of a container does not put the replacement above it.
  lemma {:induction false} CanReplace(types: ItemTypes, world: set<Item>, container: Item, index: nat, item: Item)
    requires Sound(types, world) && container in world && item in world && index < |container.itemlist|
    requires item.parent == null && !HoldsOrIs(ShapeOf(types, world).parent, item, container)
    ensures container.isContainer && container.itemlist[index] in world
    ensures !HoldsOrIs(ShapeOf(types, world).parent[container.itemlist[index] := null], item, container)
  {
    var sh := ShapeOf(types, world);
    assert ListFits(sh, container) && container.itemlist[index] in sh.list[container];
    DetachedHolds(sh.parent, container.itemlist[index], item, container);
  }

  lemma {:induction false} DetachedHolds(par: Parents, loose: Item, y: Item, x: Item?)
    requires loose in par && !HoldsOrIs(par, y, x)
    ensures !HoldsOrIs(par[loose := null], y, x)
  {
    if HoldsOrIs(par[loose := null], y, x) {
      var k: nat :| Meets(par[loose := null], x, y, k);
      DetachedMeets(par, loose, y, x, k);
    }
  }

  lemma {:induction false} DetachedMeets(par: Parents, loose: Item, y: Item, x: Item?, k: nat)
    requires Meets(par[loose := null], x, y, k) && loose in par
    ensures Meets(par, x, y, k)
  {
    if k > 0 && x != loose {
      DetachedMeets(par, loose, y, par[x], k - 1);
    }
  }
}
