/** The walk over everything a container holds, level by level, and the queries that use it. */
module ContainerIterators {

  // An item by identity, and what lies inside it, front first; an item that is no container holds nothing.
  datatype Item = Item(id: nat, inside: seq<Item>)

  // ---------------------------------------------------------------- level order

  function Inside(items: seq<Item>): seq<Item> {
    if items == [] then [] else items[0].inside + Inside(items[1..])
  }

  function Size(item: Item): nat {
    1 + SizeAll(item.inside)
  }

  function SizeAll(items: seq<Item>): nat {
    if items == [] then 0 else Size(items[0]) + SizeAll(items[1..])
  }

  lemma {:induction false} SizeConcat(a: seq<Item>, b: seq<Item>)
    ensures SizeAll(a + b) == SizeAll(a) + SizeAll(b)
  {
    if a == [] {
      assert a + b == b;
    } else {
      assert (a + b)[1..] == a[1..] + b;
      SizeConcat(a[1..], b);
    }
  }

  lemma {:induction false} SizeInside(items: seq<Item>)
    ensures SizeAll(items) == |items| + SizeAll(Inside(items))
  {
    if items != [] {
      SizeInside(items[1..]);
      SizeConcat(items[0].inside, Inside(items[1..]));
    }
  }

  // One level, then everything one level further down, and so on.
  function LevelOrder(items: seq<Item>): seq<Item>
    decreases SizeAll(items)
  {
    if items == [] then []
    else
      SizeInside(items);
      items + LevelOrder(Inside(items))
  }

  // All items at any depth, each before what it holds.
  function Flat(items: seq<Item>): seq<Item>
    decreases items
  {
    if items == [] then [] else [items[0]] + Flat(items[0].inside) + Flat(items[1..])
  }

  lemma {:induction false} InsideConcat(a: seq<Item>, b: seq<Item>)
    ensures Inside(a + b) == Inside(a) + Inside(b)
  {
    if a == [] {
      assert a + b == b;
    } else {
      assert (a + b)[1..] == a[1..] + b;
      InsideConcat(a[1..], b);
      assert a[0].inside + (Inside(a[1..]) + Inside(b)) == a[0].inside + Inside(a[1..]) + Inside(b);
    }
  }

  lemma {:induction false} FlatConcat(a: seq<Item>, b: seq<Item>)
    ensures Flat(a + b) == Flat(a) + Flat(b)
  {
    if a == [] {
      assert a + b == b;
    } else {
      assert (a + b)[1..] == a[1..] + b;
      FlatConcat(a[1..], b);
    }
  }

  lemma {:induction false} FlatByLevel(items: seq<Item>)
    ensures multiset(Flat(items)) == multiset(items) + multiset(Flat(Inside(items)))
  {
    if items != [] {
      var first, rest := items[0], items[1..];
      assert Flat(items) == [first] + Flat(first.inside) + Flat(rest);
      assert Inside(items) == first.inside + Inside(rest);
      assert items == [first] + rest;
      hide *;
      FlatByLevel(rest);
      FlatConcat(first.inside, Inside(rest));
      assert multiset(items) == multiset{first} + multiset(rest);
      assert multiset(Flat(items)) == multiset{first} + multiset(Flat(first.inside)) + multiset(Flat(rest));
    }
  }

  // Level order meets every item at any depth exactly as often as it occurs.
  lemma {:induction false} LevelOrderComplete(items: seq<Item>)
    ensures multiset(LevelOrder(items)) == multiset(Flat(items))
    decreases SizeAll(items)
  {
    if items != [] {
      SizeInside(items);
      LevelOrderComplete(Inside(items));
      FlatByLevel(items);
    }
  }

  lemma {:induction false} FlatSize(items: seq<Item>)
    ensures |Flat(items)| == SizeAll(items)
    decreases items
  {
    if items != [] {
      FlatSize(items[0].inside);
      FlatSize(items[1..]);
    }
  }

  // ---------------------------------------------------------------- the queue of containers

  // The items that enter the queue: containers that are not empty.
  function Full(items: seq<Item>): (r: seq<Item>)
    ensures forall c | c in r :: c.inside != []
  {
    if items == [] then [] else (if items[0].inside != [] then [items[0]] else []) + Full(items[1..])
  }

  lemma {:induction false} FullConcat(a: seq<Item>, b: seq<Item>)
    ensures Full(a + b) == Full(a) + Full(b)
  {
    if a == [] {
      assert a + b == b;
    } else {
      assert (a + b)[1..] == a[1..] + b;
      FullConcat(a[1..], b);
    }
  }

  lemma {:induction false} FullInside(items: seq<Item>)
    ensures Inside(Full(items)) == Inside(items)
  {
    if items != [] {
      FullInside(items[1..]);
      InsideConcat(if items[0].inside != [] then [items[0]] else [], Full(items[1..]));
    }
  }

  lemma {:induction false} FullSmaller(items: seq<Item>)
    ensures SizeAll(Full(items)) <= SizeAll(items)
  {
    if items != [] {
      FullSmaller(items[1..]);
      SizeConcat(if items[0].inside != [] then [items[0]] else [], Full(items[1..]));
    }
  }

  // What is still to be visited when the containers in `over` have not been started.
  function Visits(over: seq<Item>): seq<Item>
    decreases SizeAll(over)
  {
    if over == [] then []
    else
      var kids := over[0].inside;
      FullSmaller(kids);
      SizeConcat(over[1..], Full(kids));
      assert SizeAll(over) == 1 + SizeAll(kids) + SizeAll(over[1..]);
      kids + Visits(over[1..] + Full(kids))
  }

  lemma {:induction false} VisitsStep(first: Item, rest: seq<Item>)
    ensures Visits([first] + rest) == first.inside + Visits(rest + Full(first.inside))
  {
    assert ([first] + rest)[1..] == rest;
  }

  // Working through part of the queue visits what is inside that part, and queues its containers.
  lemma {:induction false} VisitsFront(front: seq<Item>, back: seq<Item>)
    ensures Visits(front + back) == Inside(front) + Visits(back + Full(Inside(front)))
    decreases |front|
  {
    hide Visits, Full;
    if front == [] {
      assert front + back == back;
      NoneFull();
      assert back + [] == back;
    } else {
      var kids, rest := front[0].inside, front[1..];
      assert front + back == [front[0]] + (rest + back);
      VisitsStep(front[0], rest + back);
      assert rest + back + Full(kids) == rest + (back + Full(kids));
      VisitsFront(rest, back + Full(kids));
      FullConcat(kids, Inside(rest));
      assert back + Full(kids) + Full(Inside(rest)) == back + Full(Inside(front));
    }
  }

  lemma {:induction false} NoneFull()
    ensures Full([]) == []
  {}

  // The queue is worked off in level order.
  lemma {:induction false} VisitsAreLevelOrder(items: seq<Item>)
    ensures Visits(Full(items)) == LevelOrder(Inside(items))
    decreases SizeAll(items)
  {
    var full := Full(items);
    assert full + [] == full;
    VisitsFront(full, []);
    FullInside(items);
    var next := Inside(items);
    assert [] + Full(next) == Full(next);
    SizeInside(items);
    if items == [] {
      assert Inside(items) == [];
    } else {
      VisitsAreLevelOrder(next);
    }
    if next == [] {
      assert Full(next) == [] && Visits([]) == [];
    }
  }

  // Everything not yet visited when the front container is being walked at place `cur`.
  ghost function Left(over: seq<Item>, cur: nat): seq<Item>
    requires over != [] ==> cur <= |over[0].inside|
  {
    if over == [] then []
    else
      var left := over[0].inside[cur..];
      left + Visits(over[1..] + Full(left))
  }

  lemma {:induction false} LeftFromStart(over: seq<Item>)
    ensures Left(over, 0) == Visits(over)
  {
    if over != [] {
      assert over[0].inside[0..] == over[0].inside;
    }
  }

  // Visiting one item takes it off the front, whether its contents are queued now or still to be.
  lemma {:induction false} LeftAfterOne(over: seq<Item>, cur: nat)
    requires over != [] && cur < |over[0].inside|
    ensures var item := over[0].inside[cur];
            Left(over, cur) == [item] + Left(over + Full([item]), cur + 1)
  {
    hide Visits, Full, Left;
    var item, left, rest := over[0].inside[cur], over[0].inside[cur..], over[0].inside[cur + 1..];
    var more := over + Full([item]);
    LeftIs(over, cur);
    LeftIs(more, cur + 1);
    assert left == [item] + rest;
    FullConcat([item], rest);
    assert more[1..] + Full(rest) == over[1..] + (Full([item]) + Full(rest));
    assert [item] + (rest + Visits(over[1..] + Full(left))) == left + Visits(over[1..] + Full(left));
  }

  lemma {:induction false} LeftIs(over: seq<Item>, cur: nat)
    requires over != [] && cur <= |over[0].inside|
    ensures Left(over, cur) == over[0].inside[cur..] + Visits(over[1..] + Full(over[0].inside[cur..]))
  {}

  // The iterator: containers still to be walked, the front one being walked at place `cur`.
  class ContainerIterator {
    var over: seq<Item>
    var cur: nat

    ghost predicate Valid()
      reads this
    {
      (forall c | c in over :: c.inside != []) && (over != [] ==> cur < |over[0].inside|)
    }

    // Everything not yet visited, in the order in which it will be.
    ghost function Remaining(): seq<Item>
      requires Valid()
      reads this
    {
      Left(over, cur)
    }

    constructor (container: Item)
      ensures Valid()
      ensures Remaining() == LevelOrder(container.inside)
    {
      over := if container.inside == [] then [] else [container];
      cur := 0;
      new;
      var kids := container.inside;
      VisitsAreLevelOrder(kids);
      assert kids[0..] == kids && [] + Full(kids) == Full(kids);
    }

    predicate HasNext()
      requires Valid()
      reads this
      ensures HasNext() <==> Remaining() != []
    {
      over != []
    }

    function Current(): (item: Item)
      requires Valid() && HasNext()
      reads this
      ensures item == Remaining()[0]
    {
      over[0].inside[cur]
    }

    method Advance()
      requires Valid() && HasNext()
      modifies this
      ensures Valid()
      ensures Remaining() == old(Remaining())[1..]
    {
      hide Visits, Left;
      LeftAfterOne(over, cur);
      assert over + [] == over;
      var item := over[0].inside[cur];
      assert Full([item]) == if item.inside != [] then [item] else [];
      if item.inside != [] {
        over := over + [item];
      }
      cur := cur + 1;
      if cur == |over[0].inside| {
        LeftAtEnd(over);
        over := over[1..];
        cur := 0;
        LeftFromStart(over);
      }
    }
  }

  lemma {:induction false} LeftAtEnd(over: seq<Item>)
    requires over != []
    ensures Left(over, |over[0].inside|) == Visits(over[1..])
  {
    assert over[1..] + Full([]) == over[1..];
  }

  // ---------------------------------------------------------------- the queries

  // The number of items at any depth.
  method GetItemHoldingCount(container: Item) returns (counter: nat)
    ensures counter == |Flat(container.inside)|
  {
    var it := new ContainerIterator(container);
    counter := 0;
    while it.HasNext()
      invariant it.Valid() && counter + |it.Remaining()| == |LevelOrder(container.inside)|
      decreases |it.Remaining()|
    {
      counter := counter + 1;
      it.Advance();
    }
    LevelOrderComplete(container.inside);
    assert |multiset(LevelOrder(container.inside))| == |multiset(Flat(container.inside))|;
  }

  // Whether an item lies in the container at any depth.
  method IsHoldingItem(container: Item, item: Item) returns (found: bool)
    ensures found <==> item in Flat(container.inside)
  {
    hide LevelOrder, Flat, Visits, Full, ContainerIterator.Remaining;
    var it := new ContainerIterator(container);
    ghost var seen := [];
    while it.HasNext()
      invariant it.Valid() && seen + it.Remaining() == LevelOrder(container.inside)
      invariant item !in seen
      decreases |it.Remaining()|
    {
      HeldAsMember(container, seen, it.Remaining());
      if it.Current() == item {
        return true;
      }
      assert it.Remaining() == [it.Current()] + it.Remaining()[1..];
      seen := seen + [it.Current()];
      it.Advance();
    }
    HeldAsMember(container, seen, it.Remaining());
    return false;
  }

  lemma {:induction false} HeldAsMember(container: Item, seen: seq<Item>, left: seq<Item>)
    requires seen + left == LevelOrder(container.inside)
    ensures forall x :: x in Flat(container.inside) <==> x in seen || x in left
  {
    LevelOrderComplete(container.inside);
    forall x ensures x in Flat(container.inside) <==> x in seen || x in left {
      assert x in Flat(container.inside) <==> x in multiset(Flat(container.inside));
      assert x in seen + left <==> x in multiset(seen + left);
    }
  }
}
