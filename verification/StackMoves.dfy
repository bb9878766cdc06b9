/** Putting stacks into containers and moving them between containers. */
module StackMoves {
  import opened ItemEquals
  import opened Wrappers

  // A container as the moves see it; `inner` links an item that is itself a container to its contents.
  class Container {
    const capacity: nat
    const unlocked: bool
    var parent: Container?
    var items: seq<Item>
  }

  // `uid` is the object's identity.
  datatype Item = Item(uid: nat, kind: Kind, count: nat, inner: Container?)

  // `admits` is what queryAdd decides before it looks at room: pickupable, not held by the item, accepted by the
  // carrier.
  datatype Rules = Rules(stackable: nat -> bool, moveable: nat -> bool, admits: (Container, Item) -> bool)

  datatype ReturnValue = NoError | NotPossible | NotMoveable | NotAdmitted | NotEnoughRoom

  const INDEX_WHEREEVER := -1
  const MOVE_UP := 254
  const ADD_WHEREVER := 255
  const MAX_STACK := 100
  const MAP_MAX_LAYERS := 16

  // Containers do not lie in themselves.
  ghost predicate NotInItself(c: Container)
    reads c
  {
    forall i | 0 <= i < |c.items| :: c.items[i].inner != c
  }

  predicate IsStack(rules: Rules, item: Item) {
    rules.stackable(item.kind.id)
  }

  // No stack is above its limit.
  ghost predicate Stacked(rules: Rules, items: seq<Item>) {
    forall i | 0 <= i < |items| && IsStack(rules, items[i]) :: items[i].count <= MAX_STACK
  }

  // How much of an item id a list holds.
  function Units(items: seq<Item>, id: nat): nat {
    if items == [] then 0 else (if items[0].kind.id == id then items[0].count else 0) + Units(items[1..], id)
  }

  lemma {:induction false} UnitsConcat(a: seq<Item>, b: seq<Item>, id: nat)
    ensures Units(a + b, id) == Units(a, id) + Units(b, id)
  {
    if a == [] {
      assert a + b == b;
    } else {
      assert (a + b)[1..] == a[1..] + b;
      UnitsConcat(a[1..], b, id);
    }
  }

  lemma {:induction false} UnitsAt(items: seq<Item>, k: nat, id: nat)
    requires k < |items|
    ensures Units(items, id) ==
      Units(items[..k], id) + Units(items[k + 1..], id) + if items[k].kind.id == id then items[k].count else 0
  {
    assert items == items[..k] + ([items[k]] + items[k + 1..]);
    UnitsConcat(items[..k], [items[k]] + items[k + 1..], id);
    UnitsConcat([items[k]], items[k + 1..], id);
  }

  lemma {:induction false} UnitsUpdate(items: seq<Item>, k: nat, count: nat, id: nat)
    requires k < |items|
    ensures Units(items[k := items[k].(count := count)], id)
         == Units(items, id) + if items[k].kind.id == id then count - items[k].count else 0
  {
    var items' := items[k := items[k].(count := count)];
    UnitsAt(items, k, id);
    UnitsAt(items', k, id);
    assert items'[..k] == items[..k] && items'[k + 1..] == items[k + 1..];
  }

  // ---------------------------------------------------------------- where room is left

  // A listed stack, other than the item itself, that takes more of its kind.
  predicate Takes(rules: Rules, listed: Item, item: Item) {
    listed.uid != item.uid && Same(listed.kind, item.kind) && listed.count < MAX_STACK
  }

  function RoomOn(rules: Rules, listed: Item, item: Item): nat {
    if Takes(rules, listed, item) then MAX_STACK - listed.count else 0
  }

  // The room on the stacks of a list.
  function StackRoom(rules: Rules, items: seq<Item>, item: Item): nat {
    if items == [] then 0 else RoomOn(rules, items[0], item) + StackRoom(rules, items[1..], item)
  }

  function FreeSlots(capacity: nat, items: seq<Item>): nat {
    if |items| < capacity then capacity - |items| else 0
  }

  // The first listed stack that takes more, or the length of the list.
  function FirstTaking(rules: Rules, items: seq<Item>, item: Item): (k: nat)
    ensures k <= |items|
    ensures k < |items| ==> Takes(rules, items[k], item)
    ensures forall i | 0 <= i < k :: !Takes(rules, items[i], item)
  {
    if items == [] || Takes(rules, items[0], item) then 0 else 1 + FirstTaking(rules, items[1..], item)
  }

  // ---------------------------------------------------------------- adding a new item

  // Fills the stacks that take the item from the front on, as far as n goes; yields what is left over.
  function Fill(rules: Rules, items: seq<Item>, item: Item, n: nat): (r: (seq<Item>, nat))
    ensures |r.0| == |items|
  {
    if items == [] then ([], n)
    else
      var room := RoomOn(rules, items[0], item);
      var take := if n < room then n else room;
      var (rest, left) := Fill(rules, items[1..], item, n - take);
      ([items[0].(count := items[0].count + take)] + rest, left)
  }

  // What a container holds after an item has been added to it in full.
  function Added(rules: Rules, items: seq<Item>, item: Item): seq<Item> {
    if !IsStack(rules, item) then [item] + items
    else
      var (filled, left) := Fill(rules, items, item, item.count);
      if left > 0 then [item.(count := left)] + filled else filled
  }

  // The answer of a call, the same for a dry run and for a real one.
  function AddVerdict(rules: Rules, capacity: nat, admitted: bool, items: seq<Item>, item: Item): ReturnValue {
    var stack := IsStack(rules, item);
    if !admitted then NotAdmitted
    else if !(stack && FirstTaking(rules, items, item) < |items|) && |items| >= capacity then NotEnoughRoom
    else if stack && FreeSlots(capacity, items) * MAX_STACK + StackRoom(rules, items, item) < item.count
    then NotEnoughRoom
    else if !stack && FreeSlots(capacity, items) == 0 then NotEnoughRoom
    else NoError
  }

  predicate IsOneStack(rules: Rules, item: Item) {
    IsStack(rules, item) ==> 1 <= item.count <= MAX_STACK
  }

  // What a real call that is accepted leaves in the container, and how much it reports as not placed.
  function RealAdd(rules: Rules, capacity: nat, items: seq<Item>, item: Item): (seq<Item>, nat)
    requires IsOneStack(rules, item)
    decreases item.count
  {
    var k := FirstTaking(rules, items, item);
    var found := IsStack(rules, item) && k < |items|;
    if found && Same(item.kind, items[k].kind) then
      var n := if item.count < MAX_STACK - items[k].count then item.count else MAX_STACK - items[k].count;
      var merged := items[k := items[k].(count := items[k].count + n)];
      if item.count == n then (merged, 0)
      else if AddVerdict(rules, capacity, true, merged, item.(count := item.count - n)) == NoError then
        (RealAdd(rules, capacity, merged, item.(count := item.count - n)).0, 0)
      else (merged, item.count - n)
    else if found && k >= capacity then (items, 0)
    else ([item] + items, 0)
  }

  // The place of an item that has the uid, or -1.
  method GetThingIndex(c: Container, uid: nat) returns (index: int)
    ensures index == -1 <==> forall i | 0 <= i < |c.items| :: c.items[i].uid != uid
    ensures index != -1 ==> 0 <= index < |c.items| && c.items[index].uid == uid
    ensures index != -1 ==> forall i | 0 <= i < index :: c.items[i].uid != uid
  {
    index := 0;
    while index < |c.items|
      invariant 0 <= index <= |c.items|
      invariant forall i | 0 <= i < index :: c.items[i].uid != uid
    {
      if c.items[index].uid == uid {
        return;
      }
      index := index + 1;
    }
    return -1;
  }

  // How many more units of the item fit: on stacks anywhere, or on the stack at `index`, and in free slots.
  function MaxCount(rules: Rules, capacity: nat, items: seq<Item>, index: int, item: Item): nat {
    var onStacks :=
      if index == INDEX_WHEREEVER then StackRoom(rules, items, item)
      else if 0 <= index < |items| && Same(item.kind, items[index].kind) && items[index].count < MAX_STACK
      then MAX_STACK - items[index].count
      else 0;
    if IsStack(rules, item) then FreeSlots(capacity, items) * MAX_STACK + onStacks else FreeSlots(capacity, items)
  }

  method QueryMaxCount(rules: Rules, c: Container, index: int, item: Item, count: nat)
    returns (r: ReturnValue, maxQueryCount: nat)
    ensures maxQueryCount == MaxCount(rules, c.capacity, c.items, index, item)
    ensures r ==
      if (if IsStack(rules, item) then maxQueryCount < count else maxQueryCount == 0) then NotEnoughRoom else NoError
  {
    var freeSlots := if |c.items| < c.capacity then c.capacity - |c.items| else 0;
    if !IsStack(rules, item) {
      return if freeSlots == 0 then NotEnoughRoom else NoError, freeSlots;
    }
    var n := 0;
    if index == INDEX_WHEREEVER {
      for i := 0 to |c.items|
        invariant n + StackRoom(rules, c.items[i..], item) == StackRoom(rules, c.items, item)
      {
        if Takes(rules, c.items[i], item) {
          n := n + (MAX_STACK - c.items[i].count);
        }
        assert c.items[i..][1..] == c.items[i + 1..];
      }
    } else if 0 <= index < |c.items| && Same(item.kind, c.items[index].kind) && c.items[index].count < MAX_STACK {
      n := MAX_STACK - c.items[index].count;
    }
    maxQueryCount := freeSlots * MAX_STACK + n;
    r := if maxQueryCount < count then NotEnoughRoom else NoError;
  }

  // The place a container gives to an item that is not sent on: on the first stack that takes it, as asked for, or
  // anywhere.
  function PlaceIn(rules: Rules, capacity: nat, items: seq<Item>, place: int, item: Item, autoStack: bool): int {
    if place == MOVE_UP then INDEX_WHEREEVER
    else if autoStack && IsStack(rules, item) && FirstTaking(rules, items, item) < |items|
    then FirstTaking(rules, items, item)
    else if place == ADD_WHEREVER || place >= capacity then INDEX_WHEREEVER
    else place
  }

  // Where an item that should go to place `place` of c really goes: perhaps up, into an item that is a
  // container, or onto a stack that takes it. `toItem` says that the place holds an item already.
  method QueryDestination(rules: Rules, c: Container, place: int, item: Item, itemParent: Container?, autoStack: bool)
    returns (dest: Container, index: int, toItem: bool)
    requires place >= INDEX_WHEREEVER && NotInItself(c)
    ensures dest == c || (dest == c.parent && place == MOVE_UP) || 
      exists i | 0 <= i < |c.items| :: dest == c.items[i].inner
    ensures dest != c ==> index == INDEX_WHEREEVER && !toItem
    ensures place == INDEX_WHEREEVER ==> dest == c
    ensures toItem ==> dest == c && 0 <= index < |c.items|
    ensures c.unlocked && dest == c ==> (toItem <==> 0 <= index < |c.items|)
    ensures c.unlocked && dest == c ==>
      index == PlaceIn(rules, c.capacity, c.items, place, item, autoStack && itemParent != c)
  {
    dest, index, toItem := c, place, false;
    if !c.unlocked {
      return;
    }
    if index == MOVE_UP {
      return if c.parent != null then c.parent else c, INDEX_WHEREEVER, false;
    }
    if index == ADD_WHEREVER || index >= c.capacity {
      index := INDEX_WHEREEVER;
    }
    if index != INDEX_WHEREEVER && index < |c.items| {
      toItem := true;
      var sub := c.items[index].inner;
      if sub != null {
        return sub, INDEX_WHEREEVER, false;
      }
    }
    if autoStack && IsStack(rules, item) && itemParent != c {
      for n := 0 to |c.items|
        invariant n + FirstTaking(rules, c.items[n..], item) == FirstTaking(rules, c.items, item)
      {
        if Takes(rules, c.items[n], item) {
          return c, n, true;
        }
        assert c.items[n..][1..] == c.items[n + 1..];
      }
    }
  }

  // Adds an item that lies nowhere yet to a container, wherever it fits; a dry run only answers.
  method InternalAddItem(rules: Rules, c: Container, item: Item, test: bool, admitted: bool)
    returns (r: ReturnValue, remainderCount: nat)
    requires IsOneStack(rules, item) && (admitted ==> c.unlocked) && NotInItself(c)
    modifies c
    ensures r == AddVerdict(rules, c.capacity, admitted, old(c.items), item)
    ensures if test || r != NoError then c.items == old(c.items) && remainderCount == 0
            else (c.items, remainderCount) == RealAdd(rules, c.capacity, old(c.items), item)
    decreases item.count, 1
  {
    hide RealAdd, StackRoom, FirstTaking;
    remainderCount := 0;
    var dest, index, toItem := QueryDestination(rules, c, INDEX_WHEREEVER, item, null, true);
    if !admitted {
      return NotAdmitted, 0;
    }
    if index == INDEX_WHEREEVER && |c.items| >= c.capacity {
      return NotEnoughRoom, 0;
    }
    var maxQueryCount;
    r, maxQueryCount := QueryMaxCount(rules, c, INDEX_WHEREEVER, item, item.count);
    if r != NoError || test {
      return;
    }
    remainderCount := StoreItem(rules, c, item, index, toItem, maxQueryCount, admitted);
  }

  // The part of a real call after all checks: merges into the stack at `index`, with another call for the rest, or
  // adds the item at the front.
  method StoreItem(rules: Rules, c: Container, item: Item, index: int, toItem: bool, maxQueryCount: nat, admitted: bool)
    returns (remainderCount: nat)
    requires IsOneStack(rules, item) && c.unlocked && NotInItself(c) && admitted
    requires IsStack(rules, item) ==> item.count <= maxQueryCount
    requires index ==
      if IsStack(rules, item) && FirstTaking(rules, c.items, item) < |c.items| then FirstTaking(rules, c.items, item)
      else INDEX_WHEREEVER
    requires toItem <==> 0 <= index < |c.items|
    modifies c
    ensures (c.items, remainderCount) == RealAdd(rules, c.capacity, old(c.items), item)
    decreases item.count, 0
  {
    hide StackRoom, FirstTaking, AddVerdict;
    remainderCount := 0;
    if toItem && Same(item.kind, c.items[index].kind) {
      var m := if item.count < maxQueryCount then item.count else maxQueryCount;
      var n := if MAX_STACK - c.items[index].count < m then MAX_STACK - c.items[index].count else m;
      c.items := c.items[index := c.items[index].(count := c.items[index].count + n)];
      if m - n > 0 {
        // the remainder is a copy of the item with the rest of its count
        var ret, _ := InternalAddItem(rules, c, item.(count := m - n), false, admitted);
        if ret != NoError {
          remainderCount := m - n;
        }
      }
    } else if index < c.capacity {
      c.items := [item] + c.items;
    }
  }

  // ---------------------------------------------------------------- an accepted call stores everything

  lemma {:induction false} FillNothing(rules: Rules, items: seq<Item>, item: Item)
    ensures Fill(rules, items, item, 0) == (items, 0)
  {
    if items != [] {
      FillNothing(rules, items[1..], item);
      assert items == [items[0].(count := items[0].count + 0)] + items[1..];
    }
  }

  lemma {:induction false} FillNone(rules: Rules, items: seq<Item>, item: Item, n: nat)
    requires FirstTaking(rules, items, item) == |items|
    ensures Fill(rules, items, item, n) == (items, n) && StackRoom(rules, items, item) == 0
  {
    if items != [] {
      FillNone(rules, items[1..], item, n);
      assert items == [items[0].(count := items[0].count + 0)] + items[1..];
    }
  }

  lemma {:induction false} FillHere(rules: Rules, items: seq<Item>, item: Item, count: nat, n: nat)
    requires items != [] && FirstTaking(rules, items, item) == 0
    requires n == if count < MAX_STACK - items[0].count then count else MAX_STACK - items[0].count
    ensures var merged := items[0 := items[0].(count := items[0].count + n)];
            && Fill(rules, items, item, count) == Fill(rules, merged, item, count - n)
            && StackRoom(rules, items, item) == StackRoom(rules, merged, item) + n
  {
    hide Same;
    var merged := items[0 := items[0].(count := items[0].count + n)];
    assert merged[1..] == items[1..];
    if n == count {
      FillNothing(rules, items[1..], item);
      FillNothing(rules, merged, item);
      assert Fill(rules, items, item, count).0 == merged;
    } else {
      assert merged[0] == merged[0].(count := merged[0].count + 0);
    }
  }

  // Filling from the front can begin with one merge into the first stack that takes the item.
  lemma {:induction false} FillFirst(rules: Rules, items: seq<Item>, item: Item, count: nat, k: nat, n: nat)
    requires k == FirstTaking(rules, items, item) < |items|
    requires n == if count < MAX_STACK - items[k].count then count else MAX_STACK - items[k].count
    ensures var merged := items[k := items[k].(count := items[k].count + n)];
            && Fill(rules, items, item, count) == Fill(rules, merged, item, count - n)
            && StackRoom(rules, items, item) == StackRoom(rules, merged, item) + n
  {
    hide Same;
    var merged := items[k := items[k].(count := items[k].count + n)];
    if k == 0 {
      FillHere(rules, items, item, count, n);
    } else {
      FillFirst(rules, items[1..], item, count, k - 1, n);
      assert merged[1..] == items[1..][k - 1 := items[k].(count := items[k].count + n)];
    }
  }

  // Filling changes counts only, upwards, on stacks that take the item, and not beyond the limit.
  lemma {:induction false} FillGrows(rules: Rules, items: seq<Item>, item: Item, n: nat, i: nat)
    requires i < |items|
    ensures var f := Fill(rules, items, item, n).0[i];
      && f == items[i].(count := f.count)
      && items[i].count <= f.count
      && (f != items[i] ==> Takes(rules, items[i], item) && f.count <= MAX_STACK)
  {
    if i > 0 {
      var room := RoomOn(rules, items[0], item);
      FillGrows(rules, items[1..], item, n - if n < room then n else room, i - 1);
    }
  }

  lemma {:induction false} FillAlike(rules: Rules, items: seq<Item>, a: Item, b: Item, n: nat)
    requires a.uid == b.uid && a.kind == b.kind
    ensures Fill(rules, items, a, n) == Fill(rules, items, b, n)
    ensures StackRoom(rules, items, a) == StackRoom(rules, items, b)
    ensures FirstTaking(rules, items, a) == FirstTaking(rules, items, b)
  {
    if items != [] {
      var room := RoomOn(rules, items[0], a);
      FillAlike(rules, items[1..], a, b, n - if n < room then n else room);
    }
  }

  // The comparison that accepts a merge agrees with the one that finds the stack, on each stack touched.
  ghost predicate Mutual(rules: Rules, items: seq<Item>, item: Item) {
    var filled := Fill(rules, items, item, item.count).0;
    forall i | 0 <= i < |items| && filled[i] != items[i] :: Same(item.kind, items[i].kind)
  }

  // One merge into the first stack that takes the item, and what is left to add.
  ghost predicate Merges(rules: Rules, items: seq<Item>, item: Item, k: nat, n: nat, merged: seq<Item>) {
    && IsStack(rules, item)
    && k == FirstTaking(rules, items, item) < |items|
    && n == (if item.count < MAX_STACK - items[k].count then item.count else MAX_STACK - items[k].count)
    && merged == items[k := items[k].(count := items[k].count + n)]
  }

  lemma {:induction false} RestAccepted(rules: Rules, capacity: nat, items: seq<Item>, item: Item, k: nat, n: nat,
                                        merged: seq<Item>)
    requires Merges(rules, items, item, k, n, merged) && n < item.count
    requires AddVerdict(rules, capacity, true, items, item) == NoError
    ensures AddVerdict(rules, capacity, true, merged, item.(count := item.count - n)) == NoError
  {
    var rest := item.(count := item.count - n);
    FillFirst(rules, items, item, item.count, k, n);
    FillAlike(rules, merged, item, rest, 0);
    if FirstTaking(rules, merged, rest) == |merged| {
      FillNone(rules, merged, rest, 0);
    }
  }

  lemma {:induction false} FillUnits(rules: Rules, items: seq<Item>, item: Item, n: nat, id: nat)
    ensures var (filled, left) := Fill(rules, items, item, n);
      && left <= n
      && Units(filled, id) + (if id == item.kind.id then left else 0) ==
        Units(items, id) + (if id == item.kind.id then n else 0)
  {
    if items != [] {
      var room := RoomOn(rules, items[0], item);
      FillUnits(rules, items[1..], item, n - if n < room then n else room, id);
    }
  }

  lemma {:induction false} FillLeft(rules: Rules, items: seq<Item>, item: Item, n: nat)
    ensures Fill(rules, items, item, n).1 == if n <= StackRoom(rules, items, item) then 0
      else n - StackRoom(rules, items, item)
  {
    if items != [] {
      var room := RoomOn(rules, items[0], item);
      FillLeft(rules, items[1..], item, n - if n < room then n else room);
    }
  }

  // What is stored is one stack's worth of the item's id and nothing else, every stack stays within its
  // limit, what was there before stays in its place, and the container stays within its capacity.
  lemma {:induction false} AddedIsSafe(rules: Rules, capacity: nat, items: seq<Item>, item: Item, id: nat)
    requires IsOneStack(rules, item) && Stacked(rules, items)
    requires AddVerdict(rules, capacity, true, items, item) == NoError
    ensures var added := Added(rules, items, item);
      && Stacked(rules, added)
      && (|items| <= capacity ==> |added| <= capacity)
      && Units(added, id) == Units(items, id) + (if id == item.kind.id then item.count else 0)
      && (|added| == |items| || |added| == |items| + 1)
      && forall i | 0 <= i < |items| :: var kept := added[|added| - |items| + i];
           kept == items[i].(count := kept.count) && kept.count >= items[i].count
  {
    if IsStack(rules, item) {
      var (filled, left) := Fill(rules, items, item, item.count);
      FillUnits(rules, items, item, item.count, id);
      FillLeft(rules, items, item, item.count);
      forall i | 0 <= i < |items|
        ensures filled[i] == items[i].(count := filled[i].count) && filled[i].count >= items[i].count
        && (IsStack(rules, filled[i]) ==> filled[i].count <= MAX_STACK)
      {
        FillGrows(rules, items, item, item.count, i);
      }
      assert ([item.(count := left)] + filled)[1..] == filled;
    } else {
      assert ([item] + items)[1..] == items;
    }
  }

  // The comparison is mutual on the stacks touched unless one of them is equal to the item one way only.
  lemma {:induction false} MutualIff(rules: Rules, items: seq<Item>, item: Item)
    ensures var filled := Fill(rules, items, item, item.count).0;
      Mutual(rules, items, item) <==>
      forall i | 0 <= i < |items| && filled[i] != items[i] :: !OneSided(items[i].kind, item.kind)
  {
    forall i | 0 <= i < |items| && Fill(rules, items, item, item.count).0[i] != items[i]
      ensures Same(item.kind, items[i].kind) <==> !OneSided(items[i].kind, item.kind)
    {
      FillGrows(rules, items, item, item.count, i);
      OneSidedIff(items[i].kind, item.kind);
    }
  }

  // ---------------------------------------------------------------- where an accepted call stops merging

  // The first stack touched for which the comparison is not mutual, or the length of the list: here merging ends.
  function Stop(rules: Rules, items: seq<Item>, item: Item, n: nat): (k: nat)
    ensures k <= |items|
  {
    if items == [] then 0
    else
      var room := RoomOn(rules, items[0], item);
      var take := if n < room then n else room;
      if take > 0 && !Same(item.kind, items[0].kind) then 0 else 1 + Stop(rules, items[1..], item, n - take)
  }

  // What an accepted call really leaves: the stacks before that place are filled, and the rest of the item goes to
  // the front, unless merging was ended by a stack that lies beyond the capacity.
  function Stowed(rules: Rules, capacity: nat, items: seq<Item>, item: Item): seq<Item> {
    if !IsStack(rules, item) then [item] + items
    else
      var stop := Stop(rules, items, item, item.count);
      var (filled, left) := Fill(rules, items[..stop], item, item.count);
      if left > 0 && (stop == |items| || stop < capacity) then [item.(count := left)] + filled + items[stop..]
      else filled + items[stop..]
  }

  // A call that drops the rest of the item.
  predicate Drops(rules: Rules, capacity: nat, items: seq<Item>, item: Item) {
    IsStack(rules, item) && capacity <= Stop(rules, items, item, item.count) < |items|
  }

  lemma {:induction false} StopAlike(rules: Rules, items: seq<Item>, a: Item, b: Item, n: nat)
    requires a.uid == b.uid && a.kind == b.kind
    ensures Stop(rules, items, a, n) == Stop(rules, items, b, n)
  {
    if items != [] {
      var room := RoomOn(rules, items[0], a);
      StopAlike(rules, items[1..], a, b, n - if n < room then n else room);
    }
  }

  lemma {:induction false} NoStop(rules: Rules, items: seq<Item>, item: Item, n: nat)
    requires n == 0 || FirstTaking(rules, items, item) == |items|
    ensures Stop(rules, items, item, n) == |items|
  {
    if items != [] {
      NoStop(rules, items[1..], item, n);
    }
  }

  // Merging stops at the first stack that takes the item if the comparison is not mutual there; otherwise it goes
  // on after the merge as it would have begun.
  lemma {:induction false} StopFirst(rules: Rules, items: seq<Item>, item: Item, count: nat, k: nat, n: nat)
    requires k == FirstTaking(rules, items, item) < |items| && count > 0
    requires n == if count < MAX_STACK - items[k].count then count else MAX_STACK - items[k].count
    ensures var merged := items[k := items[k].(count := items[k].count + n)];
      if Same(item.kind, items[k].kind)
      then k < Stop(rules, items, item, count) == Stop(rules, merged, item, count - n)
      else Stop(rules, items, item, count) == k
  {
    hide Same;
    var merged := items[k := items[k].(count := items[k].count + n)];
    if k == 0 {
      assert merged[1..] == items[1..];
    } else {
      StopFirst(rules, items[1..], item, count, k - 1, n);
      assert merged[1..] == items[1..][k - 1 := items[k].(count := items[k].count + n)];
    }
  }

  // Before a stop every stack is full, so something is left of the item.
  lemma {:induction false} StopLeaves(rules: Rules, items: seq<Item>, item: Item, n: nat)
    ensures var stop := Stop(rules, items, item, n);
      stop < |items| ==> Fill(rules, items[..stop], item, n).1 > 0
  {
    hide Same;
    if items != [] {
      var room := RoomOn(rules, items[0], item);
      StopLeaves(rules, items[1..], item, n - if n < room then n else room);
      var stop := Stop(rules, items, item, n);
      if stop > 0 {
        assert items[..stop][1..] == items[1..][..stop - 1];
      }
    }
  }

  lemma {:induction false} StopTouches(rules: Rules, items: seq<Item>, item: Item, n: nat)
    ensures var stop := Stop(rules, items, item, n);
      stop < |items| ==> Fill(rules, items, item, n).0[stop] != items[stop]
  {
    hide Same;
    if items != [] {
      var room := RoomOn(rules, items[0], item);
      StopTouches(rules, items[1..], item, n - if n < room then n else room);
    }
  }

  // There is no stop exactly if the comparison is mutual on the stacks touched.
  lemma {:induction false} NoStopIff(rules: Rules, items: seq<Item>, item: Item, n: nat)
    ensures var filled := Fill(rules, items, item, n).0;
      Stop(rules, items, item, n) == |items| <==>
      forall i | 0 <= i < |items| && filled[i] != items[i] :: Same(item.kind, items[i].kind)
  {
    hide Same;
    if items != [] {
      var room := RoomOn(rules, items[0], item);
      var take := if n < room then n else room;
      var filled, rest := Fill(rules, items, item, n).0, Fill(rules, items[1..], item, n - take).0;
      NoStopIff(rules, items[1..], item, n - take);
      assert filled[0] != items[0] <==> take > 0;
      assert forall i | 0 < i < |items| :: filled[i] == rest[i - 1] && items[i] == items[1..][i - 1];
      assert forall i | 0 <= i < |items| - 1 :: filled[i + 1] == rest[i] && items[i + 1] == items[1..][i];
    }
  }

  // A real call does exactly that, for every accepted item.
  lemma {:induction false} AcceptedMeansStowed(rules: Rules, capacity: nat, items: seq<Item>, item: Item)
    requires IsOneStack(rules, item) && AddVerdict(rules, capacity, true, items, item) == NoError
    ensures RealAdd(rules, capacity, items, item) == (Stowed(rules, capacity, items, item), 0)
    decreases item.count
  {
    hide Stowed, AddVerdict, StackRoom, Stop, Fill;
    var k := FirstTaking(rules, items, item);
    if IsStack(rules, item) && k < |items| {
      var n := if item.count < MAX_STACK - items[k].count then item.count else MAX_STACK - items[k].count;
      var merged := items[k := items[k].(count := items[k].count + n)];
      if !Same(item.kind, items[k].kind) {
        StoppedAtOnce(rules, capacity, items, item, k, n, merged);
      } else {
        StowedRest(rules, capacity, items, item, k, n, merged);
        if item.count == n {
          NothingStowed(rules, capacity, merged, item.(count := 0));
        } else {
          RestAccepted(rules, capacity, items, item, k, n, merged);
          AcceptedMeansStowed(rules, capacity, merged, item.(count := item.count - n));
        }
      }
    } else {
      StowedInFront(rules, capacity, items, item);
    }
  }

  lemma {:induction false} StowedInFront(rules: Rules, capacity: nat, items: seq<Item>, item: Item)
    requires IsOneStack(rules, item) && (IsStack(rules, item) ==> FirstTaking(rules, items, item) == |items|)
    ensures Stowed(rules, capacity, items, item) == [item] + items
  {
    if IsStack(rules, item) {
      NoStop(rules, items, item, item.count);
      FillNone(rules, items, item, item.count);
      assert items[..|items|] == items && item.(count := item.count) == item;
    }
  }

  lemma {:induction false} NothingStowed(rules: Rules, capacity: nat, items: seq<Item>, item: Item)
    requires IsStack(rules, item) && item.count == 0
    ensures Stowed(rules, capacity, items, item) == items
  {
    NoStop(rules, items, item, 0);
    FillNothing(rules, items, item);
    assert items[..|items|] == items;
  }

  lemma {:induction false} FirstTakingBefore(rules: Rules, items: seq<Item>, item: Item, k: nat)
    requires k <= |items|
    ensures FirstTaking(rules, items[..k], item)
         == if FirstTaking(rules, items, item) < k then FirstTaking(rules, items, item) else k
  {
    hide FirstTaking, Takes;
    var before := items[..k];
    assert forall i | 0 <= i < k :: before[i] == items[i];
  }

  lemma {:induction false} StoppedAtOnce(rules: Rules, capacity: nat, items: seq<Item>, item: Item, k: nat, n: nat,
                                         merged: seq<Item>)
    requires Merges(rules, items, item, k, n, merged) && item.count >= 1 && !Same(item.kind, items[k].kind)
    ensures Stowed(rules, capacity, items, item) == if k < capacity then [item] + items else items
  {
    hide Fill, Stop, Same, RoomOn, FirstTaking;
    StopFirst(rules, items, item, item.count, k, n);
    FirstTakingBefore(rules, items, item, k);
    FillNone(rules, items[..k], item, item.count);
    assert items[..k] + items[k..] == items;
    assert item.(count := item.count) == item && [item] + items[..k] + items[k..] == [item] + items;
  }

  lemma {:induction false} StowedRest(rules: Rules, capacity: nat, items: seq<Item>, item: Item, k: nat, n: nat,
                                      merged: seq<Item>)
    requires Merges(rules, items, item, k, n, merged) && item.count >= 1 && Same(item.kind, items[k].kind)
    ensures Stowed(rules, capacity, items, item)
         == Stowed(rules, capacity, merged, item.(count := item.count - n))
  {
    hide Fill, Stop, Same, FirstTaking, RoomOn;
    var rest := item.(count := item.count - n);
    StopFirst(rules, items, item, item.count, k, n);
    StopAlike(rules, merged, item, rest, rest.count);
    var stop := Stop(rules, items, item, item.count);
    FirstTakingBefore(rules, items, item, stop);
    FillFirst(rules, items[..stop], item, item.count, k, n);
    assert merged[..stop] == items[..stop][k := items[k].(count := items[k].count + n)];
    FillAlike(rules, merged[..stop], item, rest, rest.count);
    assert merged[stop..] == items[stop..];
  }

  // The dry run is right: an accepted item leaves no remainder; and it is stored in full, over the stacks
  // that take it and one new stack, exactly when the comparison is mutual on the stacks touched.
  lemma {:induction false} AcceptedMeansAdded(rules: Rules, capacity: nat, items: seq<Item>, item: Item)
    requires IsOneStack(rules, item) && AddVerdict(rules, capacity, true, items, item) == NoError
    ensures RealAdd(rules, capacity, items, item).1 == 0
    ensures RealAdd(rules, capacity, items, item).0 == Added(rules, items, item)
       <==> !IsStack(rules, item) || Mutual(rules, items, item)
  {
    hide RealAdd, AddVerdict, Fill, Stop;
    AcceptedMeansStowed(rules, capacity, items, item);
    if IsStack(rules, item) {
      NoStopIff(rules, items, item, item.count);
      StopTouches(rules, items, item, item.count);
      var stop := Stop(rules, items, item, item.count);
      if stop == |items| {
        assert items[..stop] == items && items[stop..] == [];
      } else {
        var stowed, added := Stowed(rules, capacity, items, item), Added(rules, items, item);
        assert stowed[stop + |stowed| - |items|] == items[stop];
        assert |added| == |stowed| ==> added[stop + |stowed| - |items|] != items[stop];
      }
    }
  }

  // How many units an accepted call drops.
  function Dropped(rules: Rules, capacity: nat, items: seq<Item>, item: Item): nat {
    if Drops(rules, capacity, items, item)
    then Fill(rules, items[..Stop(rules, items, item, item.count)], item, item.count).1
    else 0
  }

  lemma {:induction false} UnitsFirst(item: Item, items: seq<Item>, id: nat)
    ensures Units([item] + items, id) == (if item.kind.id == id then item.count else 0) + Units(items, id)
  {
    assert ([item] + items)[1..] == items;
  }

  lemma {:induction false} StowedUnits(rules: Rules, capacity: nat, items: seq<Item>, item: Item, id: nat)
    ensures Dropped(rules, capacity, items, item) <= item.count
    ensures Units(Stowed(rules, capacity, items, item), id) == Units(items, id)
         + if id == item.kind.id then item.count - Dropped(rules, capacity, items, item) else 0
  {
    hide Fill, Stop, Units, Same;
    UnitsFirst(item, items, id);
    if IsStack(rules, item) {
      var stop := Stop(rules, items, item, item.count);
      var (filled, left) := Fill(rules, items[..stop], item, item.count);
      FillUnits(rules, items[..stop], item, item.count, id);
      assert items == items[..stop] + items[stop..];
      UnitsConcat(items[..stop], items[stop..], id);
      UnitsConcat(filled, items[stop..], id);
      UnitsFirst(item.(count := left), filled + items[stop..], id);
      assert [item.(count := left)] + (filled + items[stop..]) == [item.(count := left)] + filled + items[stop..];
    }
  }

  lemma {:induction false} StowedStacked(rules: Rules, capacity: nat, items: seq<Item>, item: Item)
    requires Stacked(rules, items) && IsOneStack(rules, item)
    ensures Stacked(rules, Stowed(rules, capacity, items, item))
  {
    hide Fill, Stop;
    if IsStack(rules, item) {
      var stop := Stop(rules, items, item, item.count);
      var (filled, left) := Fill(rules, items[..stop], item, item.count);
      FillUnits(rules, items[..stop], item, item.count, item.kind.id);
      forall i | 0 <= i < stop && IsStack(rules, filled[i]) ensures filled[i].count <= MAX_STACK {
        FillGrows(rules, items[..stop], item, item.count, i);
      }
      var base := filled + items[stop..];
      assert forall i | 0 <= i < |items| :: base[i] == if i < stop then filled[i] else items[i];
      assert [item.(count := left)] + filled + items[stop..] == [item.(count := left)] + base;
    }
  }

  lemma {:induction false} StowedSize(rules: Rules, capacity: nat, items: seq<Item>, item: Item)
    requires IsOneStack(rules, item) && AddVerdict(rules, capacity, true, items, item) == NoError
    requires |items| <= capacity
    ensures |Stowed(rules, capacity, items, item)| <= capacity
         <==> !IsStack(rules, item) || Mutual(rules, items, item) || |items| < capacity
  {
    hide Fill, Stop;
    if IsStack(rules, item) {
      StopLeaves(rules, items, item, item.count);
      NoStopIff(rules, items, item, item.count);
      FillLeft(rules, items, item, item.count);
      assert items[..|items|] == items;
    }
  }

  // What is true of every accepted call: nothing is reported as left over and no stack goes over its limit. A
  // container within its capacity stays so exactly if the item does not stack, the comparison is mutual on the
  // stacks touched, or a slot is free. All units of the item are stored, and no others are touched, exactly if
  // merging is not ended beyond the capacity; that never happens to a container within its capacity.
  lemma {:induction false} AcceptedIsSafe(rules: Rules, capacity: nat, items: seq<Item>, item: Item, id: nat)
    requires IsOneStack(rules, item) && AddVerdict(rules, capacity, true, items, item) == NoError
    requires Stacked(rules, items)
    ensures var (after, remainder) := RealAdd(rules, capacity, items, item);
      && remainder == 0
      && Stacked(rules, after)
      && (|items| <= capacity ==>
          (|after| <= capacity <==> !IsStack(rules, item) || Mutual(rules, items, item) || |items| < capacity))
      && (id != item.kind.id ==> Units(after, id) == Units(items, id))
      && (!Drops(rules, capacity, items, item) <==>
          Units(after, item.kind.id) == Units(items, item.kind.id) + item.count)
      && (|items| <= capacity ==> !Drops(rules, capacity, items, item))
  {
    hide RealAdd, Stowed, Mutual, Stacked, AddVerdict, Fill, Stop;
    AcceptedMeansStowed(rules, capacity, items, item);
    StowedStacked(rules, capacity, items, item);
    StowedUnits(rules, capacity, items, item, id);
    StowedUnits(rules, capacity, items, item, item.kind.id);
    StopLeaves(rules, items, item, item.count);
    if |items| <= capacity {
      StowedSize(rules, capacity, items, item);
    }
  }

  // The comparison of the code meets such stacks: over a stack with attributes only, an accepted call with the same
  // attributes and some abilities takes the container over its capacity; after that, another one with other
  // abilities is accepted and stores nothing at all, and reports nothing either.
  lemma {:induction false} OneSidedOverfills(rules: Rules, attributes: map<nat, Value>, one: map<nat, int>,
                                             two: map<nat, int>)
    requires rules.stackable(7) && one != two
    ensures
      var held := Item(1, Kind(7, Some(attributes), None), 50, null);
      var first := Item(2, Kind(7, Some(attributes), Some(one)), 10, null);
      var second := Item(3, Kind(7, Some(attributes), Some(two)), 10, null);
      && OneSided(held.kind, first.kind) && OneSided(held.kind, second.kind)
      && AddVerdict(rules, 1, true, [held], first) == NoError
      && RealAdd(rules, 1, [held], first) == ([first, held], 0)
      && AddVerdict(rules, 1, true, [first, held], second) == NoError
      && RealAdd(rules, 1, [first, held], second) == ([first, held], 0)
      && Drops(rules, 1, [first, held], second)
  {
    var held := Item(1, Kind(7, Some(attributes), None), 50, null);
    var first := Item(2, Kind(7, Some(attributes), Some(one)), 10, null);
    var second := Item(3, Kind(7, Some(attributes), Some(two)), 10, null);
    assert [held][1..] == [] && [first, held][1..] == [held];
    assert Takes(rules, held, first) && Takes(rules, held, second) && !Takes(rules, first, second);
    assert StackRoom(rules, [held], first) == 50 + StackRoom(rules, [], first);
    assert StackRoom(rules, [held], second) == 50 + StackRoom(rules, [], second);
    assert [first] + [held] == [first, held];
    assert FirstTaking(rules, [held], second) == 0;
    assert Stop(rules, [held], second, 10) == 0;
    assert Stop(rules, [first, held], second, 10) == 1;
  }

  // ---------------------------------------------------------------- moving

  // Taking m units of the item at place i out of a list: off the stack, or the whole item.
  function Take(rules: Rules, items: seq<Item>, i: nat, m: nat): seq<Item>
    requires i < |items| && (IsStack(rules, items[i]) ==> m <= items[i].count)
  {
    if IsStack(rules, items[i]) && m != items[i].count then items[i := items[i].(count := items[i].count - m)]
    else items[..i] + items[i + 1..]
  }

  // How many of m units go onto the stack at place `index`.
  function Merging(rules: Rules, items: seq<Item>, index: int, item: Item, m: nat): nat {
    if IsStack(rules, item) && 0 <= index < |items| && Same(item.kind, items[index].kind)
       && items[index].count < MAX_STACK
    then
      if MAX_STACK - items[index].count < m then MAX_STACK - items[index].count else m
    else 0
  }

  // A copy of a stack is another object, with a table of its own if the stack has one.
  function Copied(item: Item, copy: nat, count: nat): Item {
    item.(uid := copy, kind := Cloned(item.kind, copy), count := count)
  }

  // Putting m units down: as many as fit onto the stack at `index`, the rest as a new stack at the front;
  // an item that does not stack goes to the front itself.
  function Land(rules: Rules, items: seq<Item>, index: int, item: Item, m: nat, copy: nat): seq<Item> {
    if !IsStack(rules, item) then [item] + items
    else
      var n := Merging(rules, items, index, item, m);
      var merged := if n > 0 then items[index := items[index].(count := items[index].count + n)] else items;
      if m > n then [Copied(item, copy, m - n)] + merged else merged
  }

  ghost predicate DistinctUids(items: seq<Item>) {
    forall i, j | 0 <= i < j < |items| :: items[i].uid != items[j].uid
  }

  // An object that is listed in two places looks the same in both.
  ghost predicate SameObject(items: seq<Item>, item: Item) {
    forall i | 0 <= i < |items| && items[i].uid == item.uid :: items[i] == item
  }

  lemma {:induction false} TakeUnits(rules: Rules, items: seq<Item>, i: nat, m: nat, id: nat)
    requires i < |items| && (IsStack(rules, items[i]) ==> m <= items[i].count)
    ensures Units(Take(rules, items, i, m), id) +
      (if id == items[i].kind.id then if IsStack(rules, items[i]) then m else items[i].count else 0)
         == Units(items, id)
  {
    if IsStack(rules, items[i]) && m != items[i].count {
      UnitsUpdate(items, i, items[i].count - m, id);
    } else {
      UnitsAt(items, i, id);
      UnitsConcat(items[..i], items[i + 1..], id);
    }
  }

  lemma {:induction false} LandUnits(rules: Rules, items: seq<Item>, index: int, item: Item, m: nat, copy: nat, id: nat)
    ensures Units(Land(rules, items, index, item, m, copy), id)
         == Units(items, id) + if id == item.kind.id then if IsStack(rules, item) then m else item.count else 0
  {
    var n := Merging(rules, items, index, item, m);
    if IsStack(rules, item) {
      var merged := if n > 0 then items[index := items[index].(count := items[index].count + n)] else items;
      if n > 0 {
        UnitsUpdate(items, index, items[index].count + n, id);
      }
      assert ([Copied(item, copy, m - n)] + merged)[1..] == merged;
    } else {
      assert ([item] + items)[1..] == items;
    }
  }

  lemma {:induction false} LandStacked(rules: Rules, items: seq<Item>, index: int, item: Item, m: nat, copy: nat)
    requires Stacked(rules, items) && (IsStack(rules, item) ==> m <= MAX_STACK)
    ensures Stacked(rules, Land(rules, items, index, item, m, copy))
  {}

  lemma {:induction false} TakeStacked(rules: Rules, items: seq<Item>, i: nat, m: nat)
    requires Stacked(rules, items) && i < |items| && (IsStack(rules, items[i]) ==> m <= items[i].count)
    ensures Stacked(rules, Take(rules, items, i, m))
  {}

  // The containers in reach of a move, closed under going up and going into an item.
  ghost predicate Closed(world: set<Container>)
    reads world
  {
    forall c | c in world ::
      && NotInItself(c)
      && (c.parent != null ==> c.parent in world)
      && forall i | 0 <= i < |c.items| && c.items[i].inner != null :: c.items[i].inner in world
  }

  // What a settled destination is like: a place in the list, or nowhere in particular.
  ghost predicate Settled(rules: Rules, dest: Container, index: int, toItem: bool, item: Item)
    reads dest
  {
    dest.unlocked ==>
      && index >= INDEX_WHEREEVER
      && (toItem <==> 0 <= index < |dest.items|)
      && (index >= dest.capacity ==> toItem && Takes(rules, dest.items[index], item))
  }

  // The place at the final destination; after a redirection none in particular is asked for.
  ghost function FinalPlace(rules: Rules, to: Container, dest: Container, destItems: seq<Item>, place: int, item: Item,
                            from: Container, ignoreAutoStack: bool): int
  {
    if dest == to then PlaceIn(rules, to.capacity, destItems, place, item, !ignoreAutoStack && from != to)
    else PlaceIn(rules, dest.capacity, destItems, INDEX_WHEREEVER, item, from != dest)
  }

  // Follows redirections until the destination stands: at most one is followed, so the bound on the
  // number of steps is never what ends the loop.
  method FindDestination(rules: Rules, to: Container, place: int, item: Item, from: Container, ignoreAutoStack: bool,
                         ghost world: set<Container>) returns (dest: Container, index: int, toItem: bool, floorN: nat)
    requires to in world && Closed(world) && place >= INDEX_WHEREEVER
    ensures dest in world && Settled(rules, dest, index, toItem, item)
    ensures dest.unlocked ==> index == FinalPlace(rules, to, dest, dest.items, place, item, from, ignoreAutoStack)
    ensures floorN <= 1 && (floorN == 0 <==> dest == to)
    ensures floorN == 1 ==> dest == to.parent || exists i | 0 <= i < |to.items| :: dest == to.items[i].inner
  {
    dest, index, toItem, floorN := to, place, false, 0;
    var autoStack := !ignoreAutoStack;
    while true
      invariant dest in world && index >= INDEX_WHEREEVER
      invariant floorN <= 1 && (floorN == 0 <==> dest == to)
      invariant index == (if dest == to then place else INDEX_WHEREEVER)
      invariant autoStack == (dest != to || !ignoreAutoStack)
      invariant floorN == 1 ==> dest == to.parent || exists i | 0 <= i < |to.items| :: dest == to.items[i].inner
      decreases 1 - floorN
    {
      var subCylinder;
      subCylinder, index, toItem := QueryDestination(rules, dest, index, item, from, autoStack);
      if subCylinder == dest {
        return;
      }
      dest := subCylinder;
      autoStack := true;
      floorN := floorN + 1;
      if floorN >= MAP_MAX_LAYERS {
        break;
      }
    }
  }

  // What the two lists are after a move of m units of the item from place i to place index.
  ghost predicate Moved(rules: Rules, item: Item, m: nat, copy: nat, same: bool, from0: seq<Item>, dest0: seq<Item>,
                        from1: seq<Item>, dest1: seq<Item>, i: nat, index: int)
  {
    && i < |from0| && from0[i] == item && (IsStack(rules, item) ==> 1 <= m <= item.count)
    && (if same then dest1 == Land(rules, Take(rules, from0, i, m), index, item, m, copy)
        else from1 == Take(rules, from0, i, m) && dest1 == Land(rules, dest0, index, item, m, copy))
  }

  // What a move asks for, with the item's destination and place settled: how many units it may take along, and
  // whether anything stands in its way.
  function Granted(rules: Rules, capacity: nat, items: seq<Item>, at: int, item: Item, count: nat): nat {
    var room := MaxCount(rules, capacity, items, at, item);
    if IsStack(rules, item) && count < room then count else room
  }

  ghost predicate MayMove(rules: Rules, dest: Container, destItems: seq<Item>, at: int, fromItems: seq<Item>,
                          item: Item, count: nat)
  {
    var m := Granted(rules, dest.capacity, destItems, at, item, count);
    && dest.unlocked
    && !(0 <= at < |destItems| && destItems[at].uid == item.uid)
    && rules.admits(dest, item)
    && !(at == INDEX_WHEREEVER && |destItems| >= dest.capacity)
    && m > 0
    && (IsStack(rules, item) ==> m <= item.count)
    && (exists k :: 0 <= k < |fromItems| && fromItems[k].uid == item.uid)
    && rules.moveable(item.kind.id)
  }

  // Moves up to `count` units of an item between containers. `r` may report that less than asked was moved.
  method InternalMoveItem(rules: Rules, from: Container, to: Container, place: int, item: Item, count: nat,
                          ignoreAutoStack: bool, copy: nat, ghost world: set<Container>)
    returns (r: ReturnValue, dest: Container, moved: nat, ghost i: nat, ghost index: int, ghost at: int)
    requires from in world && to in world && Closed(world) && place >= INDEX_WHEREEVER
    requires forall c | c in world :: Stacked(rules, c.items) && DistinctUids(c.items) && SameObject(c.items, item)
    modifies from, world
    ensures dest in world
    ensures forall c | c in world && c != from && c != dest :: c.items == old(c.items)
    ensures moved == 0 ==> forall c | c in world :: c.items == old(c.items)
    ensures moved == 0 && r == NoError ==> exists k | 0 <= k < |dest.items| :: dest.items[k].uid == item.uid
    ensures moved > 0 ==>
      Moved(rules, item, moved, copy, from == dest, old(from.items), old(dest.items), from.items, dest.items, i, index)
    ensures dest.unlocked ==>
      at == FinalPlace(rules, to, dest, old(dest.items), place, item, from, ignoreAutoStack)
    ensures moved > 0 <==> MayMove(rules, dest, old(dest.items), at, old(from.items), item, count)
    ensures moved > 0 ==> moved == Granted(rules, dest.capacity, old(dest.items), at, item, count)
    ensures moved > 0 ==> r == if IsStack(rules, item) && moved < count then NotEnoughRoom else NoError
    ensures moved > 0 ==> |dest.items| <= |old(dest.items)| || |dest.items| <= dest.capacity
  {
    hide PlaceIn, FinalPlace, StackRoom, FirstTaking, Moved, Closed, Settled;
    i, index, moved, at := 0, 0, 0, 0;
    var slot, toItem, floorN;
    dest, slot, toItem, floorN := FindDestination(rules, to, place, item, from, ignoreAutoStack, world);
    at := slot;
    if !dest.unlocked {
      return NotPossible, dest, 0, 0, 0, slot;
    }
    if toItem && dest.items[slot].uid == item.uid {
      return NoError, dest, 0, 0, 0, slot;
    }
    if !rules.admits(dest, item) {
      return NotAdmitted, dest, 0, 0, 0, slot;
    }
    if slot == INDEX_WHEREEVER && |dest.items| >= dest.capacity {
      return NotEnoughRoom, dest, 0, 0, 0, slot;
    }
    var retMaxCount, maxQueryCount := QueryMaxCount(rules, dest, slot, item, count);
    if retMaxCount != NoError && maxQueryCount == 0 {
      return retMaxCount, dest, 0, 0, 0, slot;
    }
    var m := if IsStack(rules, item) && count < maxQueryCount then count else maxQueryCount;
    var itemIndex := GetThingIndex(from, item.uid);
    if itemIndex == -1 || m == 0 || (IsStack(rules, item) && m > item.count) {
      return NotPossible, dest, 0, 0, 0, slot;
    }
    if !rules.moveable(item.kind.id) {
      return NotMoveable, dest, 0, 0, 0, slot;
    }
    i := itemIndex;
    index := Carry(rules, from, itemIndex, dest, slot, toItem, item, m, copy);
    moved := m;
    r := if IsStack(rules, item) && maxQueryCount < count then retMaxCount else NoError;
  }

  // The removal and the arrival, once nothing stands in the way.
  method Carry(rules: Rules, from: Container, i: nat, dest: Container, at: int, toItem: bool, item: Item, m: nat,
               copy: nat)
    returns (ghost index: int)
    requires i < |from.items| && from.items[i] == item && m > 0
    requires IsStack(rules, item) ==> m <= item.count <= MAX_STACK
    requires at >= INDEX_WHEREEVER && (toItem <==> 0 <= at < |dest.items|)
    requires toItem ==> dest.items[at].uid != item.uid
    requires toItem && IsStack(rules, item) && Same(item.kind, dest.items[at].kind) ==>
      dest.items[at].count <= MAX_STACK
    requires DistinctUids(dest.items) && DistinctUids(from.items)
    requires (IsStack(rules, item) && m == Merging(rules, dest.items, at, item, m)) || at < dest.capacity
    modifies from, dest
    ensures Moved(rules, item, m, copy, from == dest,
                  old(from.items), old(dest.items), from.items, dest.items, i, index)
    ensures |dest.items| <= |old(dest.items)| +
      if IsStack(rules, item) && m == Merging(rules, old(dest.items), at, item, m) then 0 else 1
  {
    hide DistinctUids, Land;
    ghost var dest0, from0 := dest.items, from.items;
    var toUid := if toItem then dest.items[at].uid else 0;
    if toItem {
      StillListed(rules, dest0, from0, i, m, at, from == dest);
    }
    Depart(rules, from, i, item, m);
    var toIndex := -1;
    if toItem {
      toIndex := GetThingIndex(dest, toUid);
      assert dest.items[toIndex] == dest0[at];
    }
    ghost var landing := dest.items;
    assert Merging(rules, landing, toIndex, item, m) == Merging(rules, dest0, at, item, m);
    Arrive(rules, dest, toIndex, at, item, m, copy);
    LandSize(rules, landing, toIndex, item, m, copy);
    index := toIndex;
  }

  method Depart(rules: Rules, from: Container, i: nat, item: Item, m: nat)
    requires i < |from.items| && from.items[i] == item && (IsStack(rules, item) ==> m <= item.count)
    modifies from
    ensures from.items == Take(rules, old(from.items), i, m)
  {
    if IsStack(rules, item) && m != item.count {
      from.items := from.items[i := item.(count := item.count - m)];
    } else {
      from.items := from.items[..i] + from.items[i + 1..];
    }
  }

  // `toIndex` is where the stack to merge with stands, if any; `at` is the place asked for.
  method Arrive(rules: Rules, dest: Container, toIndex: int, at: int, item: Item, m: nat, copy: nat)
    requires -1 <= toIndex < |dest.items| && m > 0
    requires toIndex >= 0 && IsStack(rules, item) && Same(item.kind, dest.items[toIndex].kind) ==>
      dest.items[toIndex].count <= MAX_STACK
    requires (IsStack(rules, item) && m == Merging(rules, dest.items, toIndex, item, m)) || at < dest.capacity
    modifies dest
    ensures dest.items == Land(rules, old(dest.items), toIndex, item, m, copy)
  {
    if IsStack(rules, item) {
      var newCount := m;
      if toIndex >= 0 && Same(item.kind, dest.items[toIndex].kind) {
        var n := if MAX_STACK - dest.items[toIndex].count < m then MAX_STACK - dest.items[toIndex].count else m;
        assert n == Merging(rules, dest.items, toIndex, item, m);
        assert n == 0 ==>
          dest.items[toIndex := dest.items[toIndex].(count := dest.items[toIndex].count + n)] == dest.items;
        dest.items := dest.items[toIndex := dest.items[toIndex].(count := dest.items[toIndex].count + n)];
        newCount := m - n;
      }
      if newCount > 0 && at < dest.capacity {
        dest.items := [Copied(item, copy, newCount)] + dest.items;
      }
    } else if at < dest.capacity {
      dest.items := [item] + dest.items;
    }
  }

  lemma {:induction false} LandSize(rules: Rules, items: seq<Item>, index: int, item: Item, m: nat, copy: nat)
    ensures |Land(rules, items, index, item, m, copy)| ==
      |items| + if IsStack(rules, item) && m == Merging(rules, items, index, item, m) then 0 else 1
  {}

  // The item at the destination is still there after the removal, and looks the same.
  lemma {:induction false} StillListed(rules: Rules, dest0: seq<Item>, from0: seq<Item>, i: nat, m: nat, at: nat,
                                       same: bool)
    requires i < |from0| && at < |dest0| && (IsStack(rules, from0[i]) ==> m <= from0[i].count)
    requires dest0[at].uid != from0[i].uid && DistinctUids(dest0) && (same ==> dest0 == from0)
    ensures var dest1 := if same then Take(rules, from0, i, m) else dest0;
            exists k :: 0 <= k < |dest1| && dest1[k] == dest0[at]
    ensures var dest1 := if same then Take(rules, from0, i, m) else dest0;
            forall k | 0 <= k < |dest1| && dest1[k].uid == dest0[at].uid :: dest1[k] == dest0[at]
  {
    var dest1 := if same then Take(rules, from0, i, m) else dest0;
    if same && !(IsStack(rules, from0[i]) && m != from0[i].count) {
      assert dest1[if at < i then at else at - 1] == dest0[at];
    } else {
      assert dest1[at] == dest0[at];
    }
  }

  // A move conserves the count of every item id, and keeps every stack within its limit.
  lemma {:induction false} MovedConserves(rules: Rules, item: Item, m: nat, copy: nat, same: bool, from0: seq<Item>,
                                          dest0: seq<Item>,
                                          from1: seq<Item>, dest1: seq<Item>, i: nat, index: int, id: nat)
    requires Moved(rules, item, m, copy, same, from0, dest0, from1, dest1, i, index)
    requires Stacked(rules, from0) && Stacked(rules, dest0)
    ensures same ==> Units(dest1, id) == Units(from0, id) && Stacked(rules, dest1)
    ensures !same ==> Units(from1, id) + Units(dest1, id) == Units(from0, id) + Units(dest0, id)
    ensures !same ==> Stacked(rules, from1) && Stacked(rules, dest1)
    ensures !same && id == item.kind.id ==>
      Units(from0, id) - Units(from1, id) == if IsStack(rules, item) then m else item.count
  {
    hide Land, Stacked, Units, Take;
    if IsStack(rules, item) {
      StackedAt(rules, from0, i);
    }
    TakeUnits(rules, from0, i, m, id);
    TakeStacked(rules, from0, i, m);
    var landing := if same then Take(rules, from0, i, m) else dest0;
    LandUnits(rules, landing, index, item, m, copy, id);
    LandStacked(rules, landing, index, item, m, copy);
  }

  lemma {:induction false} StackedAt(rules: Rules, items: seq<Item>, i: nat)
    requires Stacked(rules, items) && i < |items| && IsStack(rules, items[i])
    ensures items[i].count <= MAX_STACK
  {}

  // A move keeps the items of a container apart, provided the copy it may make is a new object.
  lemma {:induction false} MovedKeepsApart(rules: Rules, item: Item, m: nat, copy: nat, same: bool, from0: seq<Item>,
                                           dest0: seq<Item>,
                                           from1: seq<Item>, dest1: seq<Item>, i: nat, index: int)
    requires Moved(rules, item, m, copy, same, from0, dest0, from1, dest1, i, index)
    requires DistinctUids(from0) && DistinctUids(dest0)
    requires forall k | 0 <= k < |from0| :: from0[k].uid != copy
    requires forall k | 0 <= k < |dest0| :: dest0[k].uid != copy && (!same ==> dest0[k].uid != item.uid)
    ensures DistinctUids(dest1) && (!same ==> DistinctUids(from1))
  {
    hide Land;
    LandApart(rules, if same then Take(rules, from0, i, m) else dest0, index, item, m, copy);
  }

  lemma {:induction false} LandApart(rules: Rules, items: seq<Item>, index: int, item: Item, m: nat, copy: nat)
    requires DistinctUids(items)
    requires forall x | x in items :: x.uid != copy && (!IsStack(rules, item) ==> x.uid != item.uid)
    ensures DistinctUids(Land(rules, items, index, item, m, copy))
  {
    assert forall k | 0 <= k < |items| :: items[k] in items;
  }
}
